/** The `authenticate` middleware: find a Bearer token in the Authorization
    header, have it verified, and record the decoded claims on the request.
    Token verification (signature and expiry) is outside the model and comes
    in as a function from token to claims, None when verification throws. */
module Auth {
  import opened Common

  /** The payload signed at login. */
  datatype Claims = Claims(id: string, username: string)

  /** The part of the request the middleware writes: `req.user`. */
  class Request {
    var user: Option<Claims>

    constructor ()
      ensures user.None?
    {
      user := None;
    }
  }

  // ----- String.prototype.split with a one-character separator ----------------------

  function Split(s: string, sep: char): (parts: seq<string>)
    ensures |parts| >= 1
    ensures forall i :: 0 <= i < |parts| ==> sep !in parts[i]
  {
    if s == [] then [""]
    else if s[0] == sep then [""] + Split(s[1..], sep)
    else
      var rest := Split(s[1..], sep);
      [[s[0]] + rest[0]] + rest[1..]
  }

  /** `parts.join(sep)`. */
  function Join(parts: seq<string>, sep: char): string
    requires |parts| >= 1
  {
    if |parts| == 1 then parts[0] else parts[0] + [sep] + Join(parts[1..], sep)
  }

  /** Splitting then joining gives the string back. */
  lemma {:induction false} JoinSplit(s: string, sep: char)
    ensures Join(Split(s, sep), sep) == s
  {
    if s != [] {
      JoinSplit(s[1..], sep);
      var rest := Split(s[1..], sep);
      if s[0] != sep {
        var parts := [[s[0]] + rest[0]] + rest[1..];
        if |rest| > 1 {
          assert parts[1..] == rest[1..];
          assert Join(rest, sep) == rest[0] + [sep] + Join(rest[1..], sep);
        }
        assert s == [s[0]] + s[1..];
      } else {
        assert s == [sep] + s[1..];
      }
    }
  }

  /** Joining separator-free parts then splitting gives the parts back. */
  lemma {:induction false} SplitJoin(parts: seq<string>, sep: char)
    requires |parts| >= 1
    requires forall i :: 0 <= i < |parts| ==> sep !in parts[i]
    ensures Split(Join(parts, sep), sep) == parts
  {
    if |parts| == 1 {
      SplitPlain(parts[0], sep);
    } else {
      SplitJoin(parts[1..], sep);
      SplitAt(parts[0], Join(parts[1..], sep), sep);
    }
  }

  /** A string without the separator is one part. */
  lemma {:induction false} SplitPlain(s: string, sep: char)
    requires sep !in s
    ensures Split(s, sep) == [s]
  {
    if s != [] {
      SplitPlain(s[1..], sep);
      assert s[0] != sep;
      assert [s[0]] + s[1..] == s;
    }
  }

  /** Splitting `a + sep + b`, where `a` has no separator, gives `a` followed by the parts of `b`. */
  lemma {:induction false} SplitAt(a: string, b: string, sep: char)
    requires sep !in a
    ensures Split(a + [sep] + b, sep) == [a] + Split(b, sep)
  {
    if a == [] {
      assert [] + [sep] + b == [sep] + b;
      assert ([sep] + b)[1..] == b;
    } else {
      SplitAt(a[1..], b, sep);
      assert (a + [sep] + b)[1..] == a[1..] + [sep] + b;
      assert [a[0]] + a[1..] == a;
    }
  }

  // ----- the header -----------------------------------------------------------------

  const Bearer: string := "Bearer "

  predicate HasBearerPrefix(h: string)
  {
    |h| >= |Bearer| && h[..|Bearer|] == Bearer
  }

  /** `authHeader.split(' ')[1]`. */
  function Token(h: string): (t: string)
    requires HasBearerPrefix(h)
    ensures ' ' !in t
    ensures t == Split(h[|Bearer|..], ' ')[0]
    ensures |Bearer| + |t| <= |h|
    ensures h[|Bearer|..|Bearer| + |t|] == t
    ensures |Bearer| + |t| == |h| || h[|Bearer| + |t|] == ' '
  {
    var rest := h[|Bearer|..];
    assert h == "Bearer" + [' '] + rest;
    SplitAt("Bearer", rest, ' ');
    JoinSplit(rest, ' ');
    SegmentPrefix(rest, ' ');
    Split(h, ' ')[1]
  }

  /** The first part of a split is the prefix before the first separator. */
  lemma {:induction false} SegmentPrefix(s: string, sep: char)
    ensures var p := Split(s, sep)[0];
            |p| <= |s| && s[..|p|] == p && (|p| == |s| || s[|p|] == sep)
  {
    if s != [] && s[0] != sep {
      SegmentPrefix(s[1..], sep);
    }
  }

  datatype AuthOutcome = Next | Unauthorized(message: string, error: string)

  /** `authenticate`. Every refusal is a 401 with one of two texts. */
  method Authenticate(req: Request, header: Option<string>, verify: string -> Option<Claims>)
      returns (r: AuthOutcome)
    modifies req
    ensures !Truthy(header) || !HasBearerPrefix(header.value) ==>
              r == Unauthorized("Authentication required", "No token provided") && req.user == old(req.user)
    ensures Truthy(header) && HasBearerPrefix(header.value) && verify(Token(header.value)).None? ==>
              r == Unauthorized("Authentication failed", "Invalid token") && req.user == old(req.user)
    ensures Truthy(header) && HasBearerPrefix(header.value) && verify(Token(header.value)).Some? ==>
              r == Next && req.user == verify(Token(header.value))
  {
    if !Truthy(header) || !HasBearerPrefix(header.value) {
      return Unauthorized("Authentication required", "No token provided");
    }
    var token := Token(header.value);
    var decoded := verify(token);
    if decoded.None? {
      return Unauthorized("Authentication failed", "Invalid token");
    }
    req.user := decoded;
    r := Next;
  }
}
