/** Signature-based tokens: signed by the subject's own key, verified from the token alone. */
module Auth {
  import opened Wrappers
  import opened Crypto

  datatype Scope = Read | OtherScope(text: string)

  /** The payload of a token; the absent fields of a malformed one are None.  The rest is whatever
      else tells its text from others with these fields: white space, order, further fields. */
  datatype Claims = Claims(sub: Option<AgentId>, did: Option<Did>, scopes: seq<Scope>,
                           issuedAt: Option<real>, expires: Option<real>, rest: string)

  datatype Seal = SignedBy(did: Did, claims: Claims) | BadSeal

  /** How the signature is spelled in base64.  Decoding skips foreign characters and unused bits,
      so besides the spelling that encoding gives there are others. */
  datatype Spelling = Canonical | Respelled(text: string)

  /** A token is a text: the payload is its claims with their rest, and the signature is what its
      spelling decodes to. */
  datatype Token =
    | NoSeparator(text: string)
    | NotJson(text: string)
    | Signed(claims: Claims, seal: Seal, spelling: Spelling)

  datatype AuthContext = AuthContext(subject: AgentId, scopes: seq<Scope>, issuedAt: real, expiresAt: real)

  datatype Error = Revoked | BadFormat | BadPayload | MissingSubject | ForeignDid | BadSignature | Expired

  const TTL: real := 3600.0

  function OrZero(x: Option<real>): real {
    if x.Some? then x.value else 0.0
  }

  function Issued(subject: AgentId, scopes: seq<Scope>, clock: real): Token {
    var claims := Claims(Some(subject), Some(DidFor(subject)), scopes, Some(clock), Some(clock + TTL), "");
    Signed(claims, SignedBy(DidFor(subject), claims), Canonical)
  }

  function Judge(token: Token, clock: real, revoked: set<Token>): Result<AuthContext, Error> {
    if token in revoked then Err(Revoked)
    else match token
      case NoSeparator(_) => Err(BadFormat)
      case NotJson(_) => Err(BadPayload)
      case Signed(c, seal, _) =>
        if c.sub.None? || c.did.None? then Err(MissingSubject)
        else if c.did.value != DidFor(c.sub.value) then Err(ForeignDid)
        else if seal != SignedBy(c.did.value, c) then Err(BadSignature)
        else if c.expires.Some? && c.expires.value < clock then Err(Expired)
        else Ok(AuthContext(c.sub.value, c.scopes, OrZero(c.issuedAt), OrZero(c.expires)))
  }

  class DidAuth {
    const clock: real
    var revoked: set<Token>

    constructor (clock: real)
      ensures this.clock == clock && revoked == {}
    {
      this.clock, revoked := clock, {};
    }

    method Issue(subject: AgentId, scopes: seq<Scope>) returns (token: Token)
      ensures SignedFor(token, subject) && token.spelling == Canonical && token.claims.rest == ""
      ensures token.claims.scopes == scopes
      ensures token.claims.issuedAt == Some(clock) && token.claims.expires == Some(clock + TTL)
      ensures forall now: real, revoked: set<Token> ::
        Judge(token, now, revoked).Ok? <==> token !in revoked && now <= clock + TTL
    {
      var claims := Claims(Some(subject), Some(DidFor(subject)), scopes, Some(clock), Some(clock + TTL), "");
      token := Signed(claims, SignedBy(DidFor(subject), claims), Canonical);
    }

    method Verify(token: Token) returns (r: Result<AuthContext, Error>)
      ensures r == Judge(token, clock, revoked)
      ensures r.Ok? <==> token !in revoked && SelfSigned(token) && Unexpired(token.claims, clock)
      ensures r.Ok? ==>
        && SignedFor(token, r.value.subject)
        && r.value.scopes == token.claims.scopes
        && (token.claims.expires.Some? ==> clock <= r.value.expiresAt)
      ensures r.Ok? ==>
        && r.value.issuedAt == (if token.claims.issuedAt.Some? then token.claims.issuedAt.value else 0.0)
        && r.value.expiresAt == (if token.claims.expires.Some? then token.claims.expires.value else 0.0)
      ensures r == Err(Revoked) <==> token in revoked
      ensures r == Err(BadFormat) <==> token !in revoked && token.NoSeparator?
      ensures r == Err(BadPayload) <==> token !in revoked && token.NotJson?
      ensures r == Err(MissingSubject) <==>
        token !in revoked && token.Signed? && (token.claims.sub.None? || token.claims.did.None?)
      ensures r == Err(ForeignDid) <==>
        && token !in revoked && token.Signed? && token.claims.sub.Some? && token.claims.did.Some?
        && token.claims.did.value != DidFor(token.claims.sub.value)
      ensures r == Err(BadSignature) <==>
        && token !in revoked && token.Signed? && token.claims.sub.Some?
        && token.claims.did == Some(DidFor(token.claims.sub.value)) && !SelfSigned(token)
      ensures r == Err(Expired) <==> token !in revoked && SelfSigned(token) && !Unexpired(token.claims, clock)
    {
      if token in revoked {
        return Err(Revoked);
      }
      if token.NoSeparator? {
        return Err(BadFormat);
      }
      if token.NotJson? {
        return Err(BadPayload);
      }
      var data := token.claims;
      if data.sub.None? || data.did.None? {
        return Err(MissingSubject);
      }
      if data.did.value != DidFor(data.sub.value) {
        return Err(ForeignDid);
      }
      if token.seal != SignedBy(data.did.value, data) {
        return Err(BadSignature);
      }
      if data.expires.Some? && data.expires.value < clock {
        return Err(Expired);
      }
      r := Ok(AuthContext(data.sub.value, data.scopes, OrZero(data.issuedAt), OrZero(data.expires)));
    }

    method Revoke(token: Token)
      modifies this
      ensures revoked == old(revoked) + {token}
      ensures forall t: Token, now: real ::
        Judge(t, now, revoked).Ok? <==> t != token && Judge(t, now, old(revoked)).Ok?
    {
      revoked := revoked + {token};
    }
  }

  /** A token verifies exactly when its text is not revoked here, it names a subject, was signed over
      these very claims by that subject's key, and has not expired. */
  lemma AcceptanceMeans(token: Token, clock: real, revoked: set<Token>)
    ensures Judge(token, clock, revoked).Ok? <==>
      && token !in revoked
      && exists subject :: SignedFor(token, subject) && Unexpired(token.claims, clock)
    ensures Judge(token, clock, revoked).Ok? ==> SignedFor(token, Judge(token, clock, revoked).value.subject)
  {
    if Judge(token, clock, revoked).Ok? {
      assert SignedFor(token, token.claims.sub.value);
    }
  }

  ghost predicate SignedFor(token: Token, subject: AgentId) {
    && token.Signed?
    && token.claims.sub == Some(subject) && token.claims.did == Some(DidFor(subject))
    && token.seal == SignedBy(DidFor(subject), token.claims)
  }

  /** Signed, over these very claims, by the subject the token names. */
  ghost predicate SelfSigned(token: Token) {
    token.Signed? && token.claims.sub.Some? && SignedFor(token, token.claims.sub.value)
  }

  predicate Unexpired(c: Claims, clock: real) {
    c.expires.Some? ==> clock <= c.expires.value
  }

  /** An issued token verifies on any instance, whatever its clock, exactly while it is not
      revoked there and the clock is at most an hour past the issue; it then says who holds it
      and for what. */
  lemma IssuedVerifies(subject: AgentId, scopes: seq<Scope>, issueClock: real, clock: real, revoked: set<Token>)
    ensures var token := Issued(subject, scopes, issueClock);
      && (Judge(token, clock, revoked).Ok? <==> token !in revoked && clock <= issueClock + 3600.0)
      && (Judge(token, clock, revoked).Ok? ==>
            Judge(token, clock, revoked).value == AuthContext(subject, scopes, issueClock, issueClock + 3600.0))
  {
  }

  /** Keeping the signature of an issued token and changing any claim makes it fail, as a foreign
      did, as a missing subject or as a bad signature. */
  lemma NoRelabelling(subject: AgentId, scopes: seq<Scope>, issueClock: real, claims: Claims, spelling: Spelling,
                      clock: real, revoked: set<Token>)
    requires claims != Issued(subject, scopes, issueClock).claims
    ensures var r := Judge(Signed(claims, Issued(subject, scopes, issueClock).seal, spelling), clock, revoked);
      r.Err? && r.error in {Revoked, MissingSubject, ForeignDid, BadSignature}
  {
  }

  // ---- one instance over time ----

  datatype Call = Issue(subject: AgentId, scopes: seq<Scope>) | Verify(token: Token) | Revoke(token: Token)

  function RevokedAfter(calls: seq<Call>): set<Token> {
    if calls == [] then {} else
      var before, c := RevokedAfter(calls[..|calls| - 1]), calls[|calls| - 1];
      if c.Revoke? then before + {c.token} else before
  }

  /** Revocation is final and touches nothing but the text revoked: after any calls, a token
      verifies exactly when it would on a new instance and no call revoked this very text. */
  lemma {:induction false} RevocationIsFinal(calls: seq<Call>, token: Token, clock: real)
    ensures Judge(token, clock, RevokedAfter(calls)).Ok? <==> Judge(token, clock, {}).Ok? && Revoke(token) !in calls
  {
    if calls != [] {
      var init, c := calls[..|calls| - 1], calls[|calls| - 1];
      RevocationIsFinal(init, token, clock);
      assert calls == init + [c];
    }
  }

  // ---- revoking a credential ----

  /** The spelling plays no part in whether a credential is good, only in whether it is revoked. */
  lemma SpellingMatters(claims: Claims, seal: Seal, x: Spelling, clock: real, revoked: set<Token>)
    ensures Judge(Signed(claims, seal, x), clock, revoked).Ok? <==>
      Judge(Signed(claims, seal, Canonical), clock, {}).Ok? && Signed(claims, seal, x) !in revoked
  {
  }

  /** The length of the longest text that some revoked signature was respelled as. */
  function LongestRevoked(calls: seq<Call>): nat {
    if calls == [] then 0 else
      var longest, c := LongestRevoked(calls[..|calls| - 1]), calls[|calls| - 1];
      if c.Revoke? && c.token.Signed? && c.token.spelling.Respelled? && |c.token.spelling.text| > longest
      then |c.token.spelling.text| else longest
  }

  lemma {:induction false} LongerIsNotRevoked(calls: seq<Call>, token: Token)
    requires token.Signed? && token.spelling.Respelled? && |token.spelling.text| > LongestRevoked(calls)
    ensures Revoke(token) !in calls
  {
    if calls != [] {
      LongerIsNotRevoked(calls[..|calls| - 1], token);
      assert calls == calls[..|calls| - 1] + [calls[|calls| - 1]];
    }
  }

  /** No calls take a good credential out of service: after any number of revocations there is a
      spelling in which it is still accepted. */
  lemma GoodCredentialStaysUsable(calls: seq<Call>, claims: Claims, seal: Seal, clock: real)
    requires Judge(Signed(claims, seal, Canonical), clock, {}).Ok?
    ensures exists x: Spelling :: Judge(Signed(claims, seal, x), clock, RevokedAfter(calls)).Ok?
  {
    var x := Respelled(seq(LongestRevoked(calls) + 1, _ => ' '));
    LongerIsNotRevoked(calls, Signed(claims, seal, x));
    RevocationIsFinal(calls, Signed(claims, seal, x), clock);
    SpellingMatters(claims, seal, x, clock, {});
  }

  /** An issued token that was revoked is still accepted in another spelling. */
  lemma RespelledIsAccepted(subject: AgentId, scopes: seq<Scope>, issueClock: real, clock: real, text: string)
    requires clock <= issueClock + 3600.0
    ensures var token := Issued(subject, scopes, issueClock);
      && Judge(token, clock, RevokedAfter([Revoke(token)])) == Err(Revoked)
      && Judge(token.(spelling := Respelled(text)), clock, RevokedAfter([Revoke(token)])).Ok?
  {
    var token := Issued(subject, scopes, issueClock);
    assert [Revoke(token)][..0] == [];
    assert RevokedAfter([Revoke(token)]) == {token};
  }
}
