/** The `verifyAccessToken` middleware: it takes the bearer token out of the
    `Authorization` header, checks it, records the caller on the request and
    hands the request on. */
module AccessToken {

  import opened Common
  import opened Credentials

  /** `s.split(sep)` for a one-character separator: the pieces between the
      separators, empty pieces included; "" splits into [""]. */
  function Split(s: string, sep: char): (parts: seq<string>)
    ensures |parts| >= 1
    ensures forall i :: 0 <= i < |parts| ==> sep !in parts[i]
    ensures |parts| == 1 <==> sep !in s
  {
    if s == [] then [[]]
    else if s[0] == sep then [[]] + Split(s[1..], sep)
    else
      var rest := Split(s[1..], sep);
      [[s[0]] + rest[0]] + rest[1..]
  }

  /** `parts.join(sep)`. */
  function Join(parts: seq<string>, sep: char): string
    requires |parts| >= 1
  {
    if |parts| == 1 then parts[0] else parts[0] + [sep] + Join(parts[1..], sep)
  }

  /** Joining the pieces gives back the header. */
  lemma {:induction false} SplitJoin(s: string, sep: char)
    ensures Join(Split(s, sep), sep) == s
  {
    if s != [] {
      SplitJoin(s[1..], sep);
      if s[0] != sep {
        var rest := Split(s[1..], sep);
        if |rest| == 1 {
          assert Split(s, sep) == [[s[0]] + rest[0]];
        } else {
          assert Split(s, sep)[1..] == rest[1..];
        }
      }
    }
  }

  /** Splitting after a first piece without separators. */
  lemma {:induction false} SplitAfterPiece(a: string, sep: char, b: string)
    requires sep !in a
    ensures Split(a + [sep] + b, sep) == [a] + Split(b, sep)
  {
    if a != [] {
      var s := a + [sep] + b;
      assert s[0] == a[0] && s[1..] == a[1..] + [sep] + b;
      SplitAfterPiece(a[1..], sep, b);
      assert [a[0]] + a[1..] == a;
    } else {
      assert (a + [sep] + b)[1..] == b;
    }
  }

  /** A piece without separators splits into itself. */
  lemma {:induction false} SplitPiece(a: string, sep: char)
    requires sep !in a
    ensures Split(a, sep) == [a]
  {
    if a != [] {
      SplitPiece(a[1..], sep);
      assert a == [a[0]] + a[1..];
    }
  }

  /** Splitting the join of separator-free pieces gives back the pieces. */
  lemma {:induction false} JoinSplit(parts: seq<string>, sep: char)
    requires |parts| >= 1
    requires forall i :: 0 <= i < |parts| ==> sep !in parts[i]
    ensures Split(Join(parts, sep), sep) == parts
  {
    if |parts| == 1 {
      SplitPiece(parts[0], sep);
    } else {
      JoinSplit(parts[1..], sep);
      SplitAfterPiece(parts[0], sep, Join(parts[1..], sep));
    }
  }

  /** `authHeader.split(" ")[1]`: the second field, undefined when the
      header holds no space. */
  function BearerToken(header: string): (token: Option<string>)
    ensures token.Some? <==> ' ' in header
    ensures token.Some? ==> ' ' !in token.value
  {
    var parts := Split(header, ' ');
    if |parts| >= 2 then Some(parts[1]) else None
  }

  /** `t` stands in `h` from position `i` up to the next space or the end. */
  ghost predicate FieldAt(h: string, i: nat, t: string) {
    i + |t| <= |h| && h[i..i + |t|] == t && ' ' !in t && (i + |t| == |h| || h[i + |t|] == ' ')
  }

  /** A field that ends at a space or at the end of `h` stands at `i`. */
  lemma FieldBefore(h: string, i: nat, t: string, rest: string)
    requires i <= |h| && h[i..] == t + rest && ' ' !in t
    requires rest == [] || rest[0] == ' '
    ensures FieldAt(h, i, t)
  {
    assert h[i..i + |t|] == h[i..][..|t|] == t;
    if rest != [] {
      assert h[i + |t|] == h[i..][|t|] == rest[0];
    }
  }

  lemma SecondFieldFound(header: string)
    requires BearerToken(header).Some?
    ensures exists k :: 0 <= k < |header| && header[k] == ' ' && ' ' !in header[..k]
                        && FieldAt(header, k + 1, BearerToken(header).value)
  {
    var parts := Split(header, ' ');
    var t := parts[1];
    SplitJoin(header, ' ');
    var k := |parts[0]|;
    var tail := Join(parts[1..], ' ');
    assert header == parts[0] + [' '] + tail;
    assert header[..k] == parts[0];
    assert header[k + 1..] == tail;
    if |parts| > 2 {
      assert tail == t + ([' '] + Join(parts[2..], ' '));
      FieldBefore(header, k + 1, t, [' '] + Join(parts[2..], ' '));
    } else {
      assert tail == t + [];
      FieldBefore(header, k + 1, t, []);
    }
  }

  lemma FieldIsSecond(header: string, k: nat, t: string)
    requires k < |header| && header[k] == ' ' && ' ' !in header[..k] && FieldAt(header, k + 1, t)
    ensures BearerToken(header) == Some(t)
  {
    var after := header[k + 1..];
    CutAt(header, 0, k);
    SplitAfterPiece(header[..k], ' ', after);
    assert Split(header, ' ')[1..] == Split(after, ' ');
    var n := |t|;
    assert after[..n] == t;
    if n == |after| {
      assert after == t;
      SplitPiece(t, ' ');
    } else {
      CutAt(after, 0, n);
      SplitAfterPiece(t, ' ', after[n + 1..]);
    }
  }

  /** The token is the text between the first space of the header and the
      next space (or the end); whatever precedes the first space, the scheme
      name included, is never looked at. */
  lemma BearerTokenIsSecondField(header: string, t: string)
    ensures BearerToken(header) == Some(t) <==>
      exists k :: 0 <= k < |header| && header[k] == ' ' && ' ' !in header[..k] && FieldAt(header, k + 1, t)
  {
    if BearerToken(header) == Some(t) {
      SecondFieldFound(header);
    }
    if exists k :: 0 <= k < |header| && header[k] == ' ' && ' ' !in header[..k] && FieldAt(header, k + 1, t) {
      var k :| 0 <= k < |header| && header[k] == ' ' && ' ' !in header[..k] && FieldAt(header, k + 1, t);
      FieldIsSecond(header, k, t);
    }
  }

  /** A header without a space carries no token. */
  lemma NoSpaceNoToken(header: string)
    requires ' ' !in header
    ensures BearerToken(header) == None
  {
    SplitPiece(header, ' ');
  }

  lemma SchemeAndToken()
    ensures BearerToken("Bearer abc") == Some("abc")
  {
    FieldIsSecond("Bearer abc", 6, "abc");
  }

  lemma ExtraFieldsIgnored()
    ensures BearerToken("Bearer abc def") == Some("abc")
  {
    FieldIsSecond("Bearer abc def", 6, "abc");
  }

  /** Two spaces after the scheme give an empty token, which is rejected. */
  lemma DoubleSpaceGivesEmptyToken()
    ensures BearerToken("Bearer  abc") == Some("")
  {
    FieldIsSecond("Bearer  abc", 6, "");
  }

  /** The Express request as the middleware sees it: the header it reads,
      the `userID` it sets, and how often it has called `next`. */
  class Request {
    const authorization: Option<string>
    var userID: Option<UserId>
    var nextCalls: nat

    constructor (authorization: Option<string>)
      ensures this.authorization == authorization && userID == None && nextCalls == 0
    {
      this.authorization := authorization;
      userID := None;
      nextCalls := 0;
    }
  }

  const MissingTokenText: string := "Access token missing"
  const InvalidTokenText: string := "Inalid access token"

  /** `verifyAccessToken(req, res, next)`: returns the rejection it sends,
      or None when it called `next`. */
  method VerifyAccessToken(req: Request, crypto: Crypto) returns (rejection: Option<Response<()>>)
    modifies req
    ensures !Truthy(req.authorization) ==>
      rejection == Some(Reply(401, MissingTokenText)) && unchanged(req)
    ensures Truthy(req.authorization) && !Truthy(BearerToken(req.authorization.value)) ==>
      rejection == Some(Reply(401, MissingTokenText)) && unchanged(req)
    ensures Truthy(req.authorization) && Truthy(BearerToken(req.authorization.value)) ==>
      var verified := crypto.verify(AccessKind, BearerToken(req.authorization.value).value);
      && (verified.None? ==> rejection == Some(Reply(403, InvalidTokenText)) && unchanged(req))
      && (verified.Some? ==>
            rejection.None? && req.userID == verified && req.nextCalls == old(req.nextCalls) + 1)
  {
    var authHeader := req.authorization;
    if !Truthy(authHeader) {
      return Some(Reply(401, MissingTokenText));
    }
    var accessToken := BearerToken(authHeader.value);
    if !Truthy(accessToken) {
      return Some(Reply(401, MissingTokenText));
    }
    var decoded := crypto.verify(AccessKind, accessToken.value);
    if decoded.None? {
      return Some(Reply(403, InvalidTokenText));
    }
    req.userID := decoded;
    req.nextCalls := req.nextCalls + 1;
    rejection := None;
  }
}
