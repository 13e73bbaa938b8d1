/**
 When a magic link is issued, begins an exchange and makes a session, said of rows and times: nothing of it succeeds
 at or after its expiry, in any run.
*/
module MagicLinkOutcomes {
  import opened Lifecycle
  import opened Wrappers

  import opened MagicLinks

  // ----- issuing -----

  predicate GoodCandidate(candidate: Link, identity: Identity, sealed: bool, now: Time) {
    && candidate.identity == identity && candidate.consumedAt.None? && candidate.revokedAt.None?
    && candidate.expiresAt > now && sealed
  }

  /** The link of an identity that is neither used nor revoked, by a name of its own. */
  predicate Current(db: Db, identity: Identity, id: Id) {
    && id in db.links && db.links[id].identity == identity
    && db.links[id].consumedAt.None? && db.links[id].revokedAt.None?
  }

  predicate Fresh(links: map<Id, Link>, id: Id, link: Link) {
    && id !in links && (forall o | o in links :: links[o].tokenHash != link.tokenHash)
    && (link.identity.purpose.ArchiveDeleteReauth? ==>
          link.identity.userId.Some? && link.identity.consultationId.Some? && link.identity.sessionId.Some?)
  }

  /** In every run, a link of the identity that is still good is handed out again, and nothing changes. */
  lemma GoodLinkIsReused(run: seq<Action>, identity: Identity, current: Id, id: Id, candidate: Link, sealed: bool, now: Time)
    requires GoodCandidate(candidate, identity, sealed, now)
    requires var db := After(Start(), run); Current(db, identity, current) && db.links[current].expiresAt > now
    ensures var db := After(Start(), run);
      IssueIn(db, identity, id, candidate, sealed, now) == (db, Success((current, false)))
  {
    OneActiveLinkInEveryRun(run);
    NewestWhenOne(After(Start(), run).links, identity);
    assert ActiveFor(After(Start(), run).links, identity, current);
  }

  /** An expired one is revoked and replaced; without one the candidate is stored. */
  lemma LinkIsIssued(run: seq<Action>, identity: Identity, id: Id, candidate: Link, sealed: bool, now: Time)
    requires GoodCandidate(candidate, identity, sealed, now) && Fresh(After(Start(), run).links, id, candidate)
    requires var db := After(Start(), run); forall o | Current(db, identity, o) :: db.links[o].expiresAt <= now
    ensures var db := After(Start(), run);
      var (after, answer) := IssueIn(db, identity, id, candidate, sealed, now);
      && answer == Success((id, true)) && after == db.(links := after.links)
      && after.links.Keys == db.links.Keys + {id} && after.links[id] == candidate.(createdAt := now)
      && forall o | o in db.links ::
           after.links[o] == if Current(db, identity, o) then db.links[o].(revokedAt := Some(now)) else db.links[o]
  {
    var db := After(Start(), run);
    OneActiveLinkInEveryRun(run);
    NewestWhenOne(db.links, identity);
    forall o | o in db.links ensures Current(db, identity, o) <==> NewestActive(db.links, identity) == Some(o) {
      assert Current(db, identity, o) <==> ActiveFor(db.links, identity, o);
    }
  }

  /** A bad candidate, or one whose id or token is taken, is refused without effect. */
  lemma BadCandidateIsRefused(run: seq<Action>, identity: Identity, id: Id, candidate: Link, sealed: bool, now: Time)
    requires !GoodCandidate(candidate, identity, sealed, now)
      || (!Fresh(After(Start(), run).links, id, candidate)
          && forall o | Current(After(Start(), run), identity, o) :: After(Start(), run).links[o].expiresAt <= now)
    ensures var db := After(Start(), run);
      IssueIn(db, identity, id, candidate, sealed, now).0 == db && IssueIn(db, identity, id, candidate, sealed, now).1.Failure?
  {
    var db := After(Start(), run);
    OneActiveLinkInEveryRun(run);
    NewestWhenOne(db.links, identity);
    var current := NewestActive(db.links, identity);
    if GoodCandidate(candidate, identity, sealed, now) {
      var links := if current.None? then db.links
        else db.links[current.value := db.links[current.value].(revokedAt := Some(now))];
      if current.Some? { assert ActiveFor(db.links, identity, current.value) && Current(db, identity, current.value); }
      assert links.Keys == db.links.Keys;
      assert forall o | o in db.links :: links[o].tokenHash == db.links[o].tokenHash;
      if id !in db.links && !candidate.identity.purpose.ArchiveDeleteReauth? {
        var o :| o in db.links && db.links[o].tokenHash == candidate.tokenHash;
        assert links[o].tokenHash == candidate.tokenHash;
      }
      assert LinkRejected(links, id, candidate.(createdAt := now));
    }
  }

  // ----- exchanges -----

  /** Neither used nor revoked nor expired. */
  predicate Good(link: Link, now: Time) { link.consumedAt.None? && link.revokedAt.None? && now < link.expiresAt }

  /** Used, or run out by the database's clock. */
  predicate Spent(e: Exchange, clock: Time) { e.consumedAt.Some? || e.expiresAt <= clock }

  /**
   An exchange begins if and only if the token is that of a good link without a live exchange, and its id and nonce are
   new; the spent exchanges of that link go.
  */
  lemma ExchangeBeginsIff(db: Db, tokenHash: Digest, linkId: Id, id: Id, nonceHash: Digest, csrfHash: Digest, now: Time, clock: Time)
    ensures var (after, answer) := BeginExchangeIn(db, tokenHash, linkId, id, nonceHash, csrfHash, now, clock);
      && (answer.Success? <==>
            && linkId in db.links && db.links[linkId].tokenHash == tokenHash && Good(db.links[linkId], now)
            && forall e | e in db.exchanges ::
                 if db.exchanges[e].linkId == linkId then Spent(db.exchanges[e], clock)
                 else e != id && db.exchanges[e].nonceHash != nonceHash)
      && (answer.Failure? ==> after == db)
      && (answer.Success? ==>
            && id in after.exchanges
            && after.exchanges[id] == Exchange(linkId, nonceHash, csrfHash, now + 300_000, None)
            && (forall e | e != id :: e in after.exchanges <==> e in db.exchanges && db.exchanges[e].linkId != linkId)
            && (forall e | e != id && e in after.exchanges :: after.exchanges[e] == db.exchanges[e])
            && after == db.(exchanges := after.exchanges))
  {
    var kept := KeptExchanges(db.exchanges, linkId, clock);
    forall e | e in db.exchanges
      ensures e in kept <==> !(db.exchanges[e].linkId == linkId && Spent(db.exchanges[e], clock))
    {
    }
  }

  // ----- verifications -----

  /** The exchange is the one of that nonce and form, neither used nor expired. */
  predicate GoodExchange(db: Db, exchangeId: Id, nonceHash: Digest, csrfHash: Digest, now: Time) {
    && exchangeId in db.exchanges && db.exchanges[exchangeId].nonceHash == nonceHash
    && db.exchanges[exchangeId].csrfHash == csrfHash && db.exchanges[exchangeId].consumedAt.None?
    && now < db.exchanges[exchangeId].expiresAt
  }

  /** What a re-authentication asks besides: the session it is bound to asks for it, is live, and is an admin's. */
  predicate Bound(db: Db, link: Link, requesting: Option<Id>, clock: Time)
    requires link.identity.userId.Some?
  {
    link.identity.purpose.ArchiveDeleteReauth? ==>
      && link.identity.consultationId.Some? && link.identity.sessionId.Some? && requesting == link.identity.sessionId
      && var s := link.identity.sessionId.value;
        && s in db.sessions && db.sessions[s].userId == link.identity.userId.value && db.sessions[s].revokedAt.None?
        && clock < db.sessions[s].expiresAt && link.identity.userId.value in db.admins
  }

  /** A verification succeeds if and only if exchange, link, binding and the new session's id and token are all good. */
  lemma VerificationSucceedsIff(db: Db, contextOk: bool, nonceHash: Digest, csrfHash: Digest, exchangeId: Id,
                                requesting: Option<Id>, sessionId: Id, tokenHash: Digest, now: Time, clock: Time)
    ensures var (after, answer) :=
        VerifyIn(db, contextOk, nonceHash, csrfHash, exchangeId, requesting, sessionId, tokenHash, now, clock);
      && (answer.Success? <==>
            && contextOk && GoodExchange(db, exchangeId, nonceHash, csrfHash, now)
            && var l := db.exchanges[exchangeId].linkId;
              && l in db.links && Good(db.links[l], now) && db.links[l].identity.userId.Some?
              && Bound(db, db.links[l], requesting, clock)
              && sessionId !in db.sessions && forall s | s in db.sessions :: db.sessions[s].tokenHash != tokenHash)
      && (answer.Failure? ==> after == db)
  {
  }

  /** What is stored when a verification succeeds: one new session of twelve hours, and the use of link and exchange. */
  lemma VerificationStores(db: Db, v: Action)
    requires v.Verify?
    requires VerifyIn(db, v.contextOk, v.nonceHash, v.csrfHash, v.exchangeId, v.requesting, v.sessionId, v.tokenHash,
                      v.now, v.clock).1.Success?
    ensures var after := Step(db, v);
      var l := db.exchanges[v.exchangeId].linkId;
      var link := db.links[l];
      var reauth := link.identity.purpose.ArchiveDeleteReauth?;
      && v.sessionId in after.sessions
      && after.sessions[v.sessionId] == Session(
           link.identity.userId.value, v.tokenHash, v.now + 43_200_000, if reauth then Some(v.now) else None,
           if reauth then link.identity.consultationId else None, None, None, l)
      && after.sessions.Keys == db.sessions.Keys + {v.sessionId}
      && after.exchanges == db.exchanges[v.exchangeId := db.exchanges[v.exchangeId].(consumedAt := Some(v.now))]
      && after.links == db.links[l := link.(consumedAt := Some(v.now))] && after.admins == db.admins
  {
  }

  /** Revoking the links of a consultation revokes exactly those neither used nor revoked before. */
  lemma RevokesCurrent(db: Db, consultationId: Id, now: Time)
    ensures var after := RevokeLinksIn(db, consultationId, now);
      && after == db.(links := after.links) && after.links.Keys == db.links.Keys
      && forall l | l in db.links ::
           after.links[l] == if db.links[l].identity.consultationId == Some(consultationId) && Current(db, db.links[l].identity, l)
                             then db.links[l].(revokedAt := Some(now)) else db.links[l]
  {
  }

  /** Why a verification is refused before its session is stored. */
  lemma VerificationRefusedBecause(db: Db, contextOk: bool, nonceHash: Digest, csrfHash: Digest, exchangeId: Id,
                                   requesting: Option<Id>, sessionId: Id, tokenHash: Digest, now: Time, clock: Time)
    ensures var answer :=
        VerifyIn(db, contextOk, nonceHash, csrfHash, exchangeId, requesting, sessionId, tokenHash, now, clock).1;
      var stored := exchangeId in db.exchanges && db.exchanges[exchangeId].nonceHash == nonceHash
        && db.exchanges[exchangeId].consumedAt.None? && now < db.exchanges[exchangeId].expiresAt;
      && (answer == Failure(InvalidContext) <==> !contextOk || (stored && db.exchanges[exchangeId].csrfHash != csrfHash))
      && (contextOk && !stored ==> answer == Failure(InvalidExchange))
      && (contextOk && GoodExchange(db, exchangeId, nonceHash, csrfHash, now)
            && !(db.exchanges[exchangeId].linkId in db.links && Good(db.links[db.exchanges[exchangeId].linkId], now)) ==>
            answer == Failure(InvalidExchange))
  {
  }

  /** Revoking a session ends it then, once; nothing else changes and no later step brings it back. */
  lemma RevokesSession(db: Db, id: Id, now: Time)
    requires id in db.sessions
    ensures var after := Step(db, RevokeSession(id, now));
      && after == db.(sessions := after.sessions) && after.sessions.Keys == db.sessions.Keys
      && after.sessions[id] ==
           (if db.sessions[id].revokedAt.None? then db.sessions[id].(revokedAt := Some(now)) else db.sessions[id])
      && forall s | s in db.sessions && s != id :: after.sessions[s] == db.sessions[s]
  {
  }

  /** A revoked session stays revoked since the same time. */
  lemma StepLeavesRevoked(db: Db, id: Id, a: Action)
    requires id in db.sessions && db.sessions[id].revokedAt.Some?
    ensures id in Step(db, a).sessions && Step(db, a).sessions[id] == db.sessions[id]
  {
  }

  lemma {:induction false} RevokedSessionStays(db: Db, id: Id, run: seq<Action>)
    requires id in db.sessions && db.sessions[id].revokedAt.Some?
    ensures id in After(db, run).sessions && After(db, run).sessions[id] == db.sessions[id]
  {
    if run != [] {
      RevokedSessionStays(db, id, run[..|run| - 1]);
      StepLeavesRevoked(After(db, run[..|run| - 1]), id, run[|run| - 1]);
    }
  }

  // ----- nothing at or after the expiry -----

  /** An expired link begins no exchange and makes no session, and both attempts change nothing. */
  lemma ExpiredLinkIsRefused(db: Db, l: Id, b: Action, v: Action)
    requires l in db.links && b.BeginExchange? && v.Verify?
    ensures b.linkId == l && db.links[l].expiresAt <= b.now ==> Step(db, b) == db
    ensures v.exchangeId in db.exchanges && db.exchanges[v.exchangeId].linkId == l && db.links[l].expiresAt <= v.now ==>
      Step(db, v) == db
  {
  }

  /** Sessions and exchanges began before their link expired, and a link was used before that. */
  ghost predicate InTime(db: Db) {
    && (forall s | s in db.sessions :: db.sessions[s].origin in db.links
          && db.sessions[s].expiresAt - SESSION_TTL_MS < db.links[db.sessions[s].origin].expiresAt)
    && (forall e | e in db.exchanges :: db.exchanges[e].linkId in db.links
          && db.exchanges[e].expiresAt - EXCHANGE_TTL_MS < db.links[db.exchanges[e].linkId].expiresAt)
    && (forall l | l in db.links && db.links[l].consumedAt.Some? :: db.links[l].consumedAt.value < db.links[l].expiresAt)
  }

  /** Only links changed, none of which was used by it or got another expiry. */
  ghost predicate OnlyRevokes(db: Db, after: Db) {
    && after.sessions == db.sessions && after.exchanges == db.exchanges
    && (forall l | l in db.links :: l in after.links)
    && forall l | l in after.links ::
         if l in db.links then after.links[l].expiresAt == db.links[l].expiresAt && after.links[l].consumedAt == db.links[l].consumedAt
         else after.links[l].consumedAt.None?
  }

  lemma RevokingKeepsInTime(db: Db, after: Db)
    requires InTime(db) && OnlyRevokes(db, after)
    ensures InTime(after)
  {
  }

  lemma IssueOnlyRevokes(db: Db, a: Action)
    requires a.Issue?
    ensures OnlyRevokes(db, Step(db, a))
  {
  }

  lemma BeginKeepsInTime(db: Db, a: Action)
    requires InTime(db) && a.BeginExchange?
    ensures InTime(Step(db, a))
  {
    ExchangeBeginsIff(db, a.tokenHash, a.linkId, a.id, a.nonceHash, a.csrfHash, a.now, a.clock);
  }

  /** What a verification does to the rows that have times. */
  lemma VerifyKeepsInTime(db: Db, a: Action)
    requires InTime(db) && a.Verify?
    ensures InTime(Step(db, a))
  {
  }

  lemma RevokeOnlyRevokes(db: Db, consultationId: Id, now: Time)
    ensures OnlyRevokes(db, RevokeLinksIn(db, consultationId, now))
  {
  }

  lemma RevokeSessionKeepsInTime(db: Db, a: Action)
    requires InTime(db) && (a.RevokeSession? || a.SetAdmins?)
    ensures InTime(Step(db, a))
  {
  }

  lemma IssueKeepsInTime(db: Db, a: Action)
    requires InTime(db) && (a.Issue? || a.RevokeLinks?)
    ensures InTime(Step(db, a))
  {
    if a.Issue? { IssueOnlyRevokes(db, a); } else { RevokeOnlyRevokes(db, a.consultationId, a.now); }
    RevokingKeepsInTime(db, Step(db, a));
  }

  lemma StepKeepsInTime(db: Db, a: Action)
    requires InTime(db)
    ensures InTime(Step(db, a))
  {
    if a.Issue? || a.RevokeLinks? { IssueKeepsInTime(db, a); }
    else if a.BeginExchange? { BeginKeepsInTime(db, a); }
    else if a.Verify? { VerifyKeepsInTime(db, a); }
    else { RevokeSessionKeepsInTime(db, a); }
  }

  /** In every run each exchange began, each link was used, and each session arose before the link's expiry. */
  lemma {:induction false} NothingAfterExpiry(run: seq<Action>)
    ensures InTime(After(Start(), run))
  {
    if run != [] {
      NothingAfterExpiry(run[..|run| - 1]);
      StepKeepsInTime(After(Start(), run[..|run| - 1]), run[|run| - 1]);
    }
  }
}
