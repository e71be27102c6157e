/**
 * The bearer-token middleware (`verifyJWT`) and token issuance (`POST /jwt`).
 *
 * Signature checking and expiry are not modelled: `jwt.verify` with the
 * server secret is an oracle that yields the decoded payload of a token it
 * accepts, and `jwt.sign` is an oracle that produces a token string.
 */
module Auth {
  import opened Collections
  import opened Records

  /** `jwt.verify(token, secret)`: the payload of a valid, unexpired token, or None. */
  type Verifier = string -> Option<Claims>

  /** `jwt.sign(payload, secret, {expiresIn: '2h'})`. */
  type Signer = Claims -> string

  /** Joins words with single spaces (the inverse of `Split`). */
  function Join(words: seq<string>): string
    requires |words| >= 1
  {
    if |words| == 1 then words[0] else words[0] + " " + Join(words[1..])
  }

  /**
   * `s.split(' ')`: the pieces between single spaces; two adjacent spaces
   * give an empty piece, and a string without a space is one piece.
   */
  function Split(s: string): (words: seq<string>)
    ensures |words| >= 1
    ensures forall i :: 0 <= i < |words| ==> ' ' !in words[i]
    ensures Join(words) == s
  {
    if s == [] then [[]]
    else
      var rest := Split(s[1..]);
      assert s == [s[0]] + s[1..];
      if s[0] == ' ' then
        assert ([[]] + rest)[1..] == rest;
        [[]] + rest
      else
        var first := [s[0]] + rest[0];
        assert ' ' !in first;
        if |rest| == 1 then [first]
        else
          assert ([first] + rest[1..])[1..] == rest[1..];
          assert Join(rest) == rest[0] + " " + Join(rest[1..]);
          [first] + rest[1..]
  }

  /** A word without spaces, followed by a space, splits off as the first piece. */
  lemma {:induction false} SplitWord(w: string, t: string)
    requires ' ' !in w
    ensures Split(w + " " + t) == [w] + Split(t)
  {
    if w == [] {
      assert w + " " + t == [' '] + t;
      assert ([' '] + t)[1..] == t;
    } else {
      var s := w + " " + t;
      assert s[0] == w[0] && s[1..] == w[1..] + " " + t;
      SplitWord(w[1..], t);
      assert [w[0]] + w[1..] == w;
    }
  }

  /** A word without spaces is a single piece. */
  lemma {:induction false} SplitSingle(w: string)
    requires ' ' !in w
    ensures Split(w) == [w]
  {
    if w != [] {
      SplitSingle(w[1..]);
      assert [w[0]] + w[1..] == w;
    }
  }

  /** Splitting undoes joining words that hold no space. */
  lemma {:induction false} SplitJoin(words: seq<string>)
    requires |words| >= 1
    requires forall i :: 0 <= i < |words| ==> ' ' !in words[i]
    ensures Split(Join(words)) == words
  {
    if |words| == 1 {
      SplitSingle(words[0]);
    } else {
      SplitJoin(words[1..]);
      SplitWord(words[0], Join(words[1..]));
      assert [words[0]] + words[1..] == words;
    }
  }

  /**
   * `authHeader.split(' ')[1]`: the second space-separated piece, if there
   * is one.  There is one exactly when the header holds a space; it is then
   * the longest space-free run right after the first space.
   */
  function BearerToken(header: string): (r: Option<string>)
    ensures r.Some? <==> ' ' in header
    ensures r.Some? ==> ' ' !in r.value
    ensures r.Some? ==> exists w :: ' ' !in w && w + " " + r.value <= header
                                    && (|w + " " + r.value| == |header| || header[|w + " " + r.value|] == ' ')
  {
    var words := Split(header);
    if |words| >= 2 then
      var w, t := words[0], words[1];
      var rest := if |words| == 2 then "" else " " + Join(words[2..]);
      assert Join(words[1..]) == t + rest;
      assert header == w + " " + t + rest;
      assert header[|w|] == ' ';
      assert (w + " " + t) <= header;
      Some(t)
    else
      assert header == words[0];
      None
  }

  /**
   * The token is the second word whatever the first one is: the scheme
   * ("Bearer") is never inspected, and words after the token are ignored.
   */
  lemma TokenIsSecondWord(words: seq<string>)
    requires |words| >= 2
    requires forall i :: 0 <= i < |words| ==> ' ' !in words[i]
    ensures BearerToken(Join(words)) == Some(words[1])
  {
    SplitJoin(words);
  }

  datatype AuthResult = Rejected | Admitted(decoded: Claims)

  /**
   * `verifyJWT`: Rejected stands for the 401 `unauthorized access` reply
   * that is sent before the handler runs; Admitted carries the payload put on
   * `req.decoded` before `next()` is called, once.  A missing or empty
   * header is rejected, so is a header with no second word, and so is an
   * empty token (`jwt.verify` refuses it before looking at the signature).
   */
  function VerifyJWT(authorization: Option<string>, verify: Verifier): (r: AuthResult)
    ensures authorization.None? || authorization == Some("") ==> r == Rejected
    ensures authorization.Some? && BearerToken(authorization.value).None? ==> r == Rejected
    ensures r.Admitted? ==>
      && authorization.Some?
      && BearerToken(authorization.value).Some?
      && verify(BearerToken(authorization.value).value) == Some(r.decoded)
    ensures authorization.Some? && authorization.value != "" && BearerToken(authorization.value).Some?
            && BearerToken(authorization.value).value != "" ==>
              (r.Admitted? <==> verify(BearerToken(authorization.value).value).Some?)
    ensures authorization.Some? && BearerToken(authorization.value) == Some("") ==> r == Rejected
  {
    match authorization
    case None => Rejected
    case Some(header) =>
      if header == "" then Rejected
      else match BearerToken(header)
        case None => Rejected
        case Some(token) =>
          if token == "" then Rejected
          else match verify(token)
            case None => Rejected
            case Some(decoded) => Admitted(decoded)
  }

  /** The verifier accepts what the signer produced, and the token has the shape of a header word. */
  predicate SignerMatches(verify: Verifier, sign: Signer, payload: Claims)
  {
    verify(sign(payload)) == Some(payload) && sign(payload) != [] && ' ' !in sign(payload)
  }

  /**
   * `POST /jwt`: signs whatever payload the caller sends; no credential is
   * checked.  Under any verifier that accepts the signer's tokens, the token
   * sent back as `Bearer <token>` is admitted with exactly that payload.
   */
  function IssueToken(payload: Claims, sign: Signer): (b: Body)
    ensures b == TokenBody(sign(payload))
    ensures forall verify :: SignerMatches(verify, sign, payload) ==>
      VerifyJWT(Some("Bearer " + b.token), verify) == Admitted(payload)
  {
    var b := TokenBody(sign(payload));
    assert forall verify :: SignerMatches(verify, sign, payload) ==>
      VerifyJWT(Some("Bearer " + b.token), verify) == Admitted(payload) by {
      forall verify | SignerMatches(verify, sign, payload)
        ensures VerifyJWT(Some("Bearer " + b.token), verify) == Admitted(payload)
      {
        AnyIdentityAdmitted(payload, sign, verify);
      }
    }
    b
  }

  /**
   * Anyone can obtain a token for any identity: the token the signer
   * produces for an arbitrary payload, sent back as `Bearer <token>`, passes
   * the middleware with exactly that payload.
   */
  lemma AnyIdentityAdmitted(payload: Claims, sign: Signer, verify: Verifier)
    requires verify(sign(payload)) == Some(payload)
    requires sign(payload) != [] && ' ' !in sign(payload)
    ensures VerifyJWT(Some("Bearer " + sign(payload)), verify) == Admitted(payload)
  {
    var words := ["Bearer", sign(payload)];
    TokenIsSecondWord(words);
    assert Join(words) == "Bearer " + sign(payload);
  }
}
