/**
 Magic links: at most one active link for each identity, exchanged once for one session.  A transaction
 that throws leaves every row as it was.
*/
module MagicLinks {
  import opened Lifecycle
  import opened Wrappers

  type Digest = nat

  const SESSION_TTL_MS := 43_200_000
  const EXCHANGE_TTL_MS := 300_000

  datatype Purpose = SignIn | ConsultationInvite | ArchiveDeleteReauth

  datatype Identity = Identity(userId: Option<Id>, purpose: Purpose, consultationId: Option<Id>, sessionId: Option<Id>)

  datatype Link = Link(
    identity: Identity, tokenHash: Digest, expiresAt: Time, consumedAt: Option<Time>, revokedAt: Option<Time>,
    createdAt: Time)

  datatype Exchange = Exchange(linkId: Id, nonceHash: Digest, csrfHash: Digest, expiresAt: Time, consumedAt: Option<Time>)

  /** `origin` is the link the session came from, which the source does not store. */
  datatype Session = Session(
    userId: Id, tokenHash: Digest, expiresAt: Time, reauthenticatedAt: Option<Time>, reauthConsultationId: Option<Id>,
    revokedAt: Option<Time>, replacedBy: Option<Id>, origin: Id)

  datatype Db = Db(
    links: map<Id, Link>, exchanges: map<Id, Exchange>, sessions: map<Id, Session>, admins: set<Id>)

  datatype Error = InvalidCandidate | InvalidOrExpiredLink | InvalidContext | InvalidExchange | InvalidBinding | UniqueViolation

  predicate Active(link: Link) { link.consumedAt.None? && link.revokedAt.None? }

  predicate ActiveFor(links: map<Id, Link>, identity: Identity, id: Id) {
    id in links && links[id].identity == identity && Active(links[id])
  }

  /** The order of `ORDER BY created_at DESC, id DESC`. */
  predicate Newer(links: map<Id, Link>, a: Id, b: Id)
    requires a in links && b in links
  {
    links[a].createdAt > links[b].createdAt || (links[a].createdAt == links[b].createdAt && a > b)
  }

  predicate NewestFor(links: map<Id, Link>, identity: Identity, id: Id) {
    ActiveFor(links, identity, id) && forall o | o in links && ActiveFor(links, identity, o) :: o == id || Newer(links, id, o)
  }

  ghost function NewestActive(links: map<Id, Link>, identity: Identity): Option<Id> {
    if exists id :: NewestFor(links, identity, id) then (var id :| NewestFor(links, identity, id); Some(id)) else None
  }

  // ----- what each transaction does -----

  /** The primary key, the unique token hash and the CHECK on re-authentication links. */
  predicate LinkRejected(links: map<Id, Link>, id: Id, link: Link) {
    || id in links
    || (exists o | o in links :: links[o].tokenHash == link.tokenHash)
    || (link.identity.purpose.ArchiveDeleteReauth?
        && (link.identity.userId.None? || link.identity.consultationId.None? || link.identity.sessionId.None?))
  }

  /** Success is the id of the active link and whether it was created now. */
  ghost function IssueIn(db: Db, identity: Identity, id: Id, candidate: Link, sealed: bool, now: Time)
    : (Db, Result<(Id, bool), Error>)
  {
    if candidate.identity != identity || !Active(candidate) || candidate.expiresAt <= now || !sealed then
      (db, Failure(InvalidCandidate))
    else
      var current := NewestActive(db.links, identity);
      if current.Some? && db.links[current.value].expiresAt > now then (db, Success((current.value, false)))
      else
        var link := candidate.(createdAt := now);
        var links := if current.None? then db.links
          else db.links[current.value := db.links[current.value].(revokedAt := Some(now))];
        if LinkRejected(links, id, link) then (db, Failure(UniqueViolation))
        else (db.(links := links[id := link]), Success((id, true)))
  }

  predicate Usable(link: Link, now: Time) { Active(link) && link.expiresAt > now }

  /** The row with a token hash, which is unique. */
  predicate HasToken(links: map<Id, Link>, id: Id, tokenHash: Digest) { id in links && links[id].tokenHash == tokenHash }

  /** All but the consumed and expired exchanges of a link. */
  function KeptExchanges(exchanges: map<Id, Exchange>, linkId: Id, clock: Time): map<Id, Exchange> {
    map e | e in exchanges
      && !(exchanges[e].linkId == linkId && (exchanges[e].consumedAt.Some? || exchanges[e].expiresAt <= clock)) :: exchanges[e]
  }

  /** The primary key, the unique nonce hash, and one live exchange for a link. */
  predicate ExchangeRejected(exchanges: map<Id, Exchange>, id: Id, linkId: Id, nonceHash: Digest) {
    || id in exchanges
    || (exists e | e in exchanges ::
          exchanges[e].nonceHash == nonceHash || (exchanges[e].linkId == linkId && exchanges[e].consumedAt.None?))
  }

  /** `linkId` is the row found by its token hash; `clock` is the database's own time. */
  function BeginExchangeIn(
    db: Db, tokenHash: Digest, linkId: Id, id: Id, nonceHash: Digest, csrfHash: Digest, now: Time, clock: Time)
    : (Db, Result<bool, Error>)
  {
    if !HasToken(db.links, linkId, tokenHash) || !Usable(db.links[linkId], now) then (db, Failure(InvalidOrExpiredLink))
    else
      var kept := KeptExchanges(db.exchanges, linkId, clock);
      if ExchangeRejected(kept, id, linkId, nonceHash) then (db, Failure(InvalidOrExpiredLink))
      else (db.(exchanges := kept[id := Exchange(linkId, nonceHash, csrfHash, now + EXCHANGE_TTL_MS, None)]), Success(true))
  }

  predicate Replaceable(db: Db, id: Id, userId: Id, clock: Time) {
    && id in db.sessions && db.sessions[id].userId == userId && db.sessions[id].revokedAt.None?
    && db.sessions[id].expiresAt > clock && userId in db.admins
  }

  predicate SessionRejected(sessions: map<Id, Session>, id: Id, tokenHash: Digest) {
    id in sessions || exists s | s in sessions :: sessions[s].tokenHash == tokenHash
  }

  /** What a link must be for a verification, given the session that asks. */
  predicate Verifiable(link: Link, requesting: Option<Id>, now: Time) {
    && link.identity.userId.Some? && Usable(link, now)
    && (link.identity.purpose.ArchiveDeleteReauth? ==>
          link.identity.sessionId.Some? && link.identity.consultationId.Some? && requesting == link.identity.sessionId)
  }

  /** `exchangeId` is the row found by its nonce hash; success is the link that was used. */
  function VerifyIn(
    db: Db, contextOk: bool, nonceHash: Digest, csrfHash: Digest, exchangeId: Id, requesting: Option<Id>,
    sessionId: Id, tokenHash: Digest, now: Time, clock: Time): (Db, Result<Id, Error>)
  {
    if !contextOk then (db, Failure(InvalidContext))
    else if exchangeId !in db.exchanges || db.exchanges[exchangeId].nonceHash != nonceHash
      || db.exchanges[exchangeId].consumedAt.Some? || db.exchanges[exchangeId].expiresAt <= now
    then (db, Failure(InvalidExchange))
    else if db.exchanges[exchangeId].csrfHash != csrfHash then (db, Failure(InvalidContext))
    else
      var linkId := db.exchanges[exchangeId].linkId;
      if linkId !in db.links || !Verifiable(db.links[linkId], requesting, now) then (db, Failure(InvalidExchange))
      else
        var link := db.links[linkId];
        var used := db.(exchanges := db.exchanges[exchangeId := db.exchanges[exchangeId].(consumedAt := Some(now))],
                        links := db.links[linkId := link.(consumedAt := Some(now))]);
        var userId := link.identity.userId.value;
        if link.identity.purpose.ArchiveDeleteReauth? then
          var replaced := link.identity.sessionId.value;
          if !Replaceable(db, replaced, userId, clock) then (db, Failure(InvalidBinding))
          else if SessionRejected(db.sessions, sessionId, tokenHash) then (db, Failure(UniqueViolation))
          else
            var created :=
              Session(userId, tokenHash, now + SESSION_TTL_MS, Some(now), link.identity.consultationId, None, None, linkId);
            var revoked := db.sessions[replaced].(revokedAt := Some(clock), replacedBy := Some(sessionId));
            (used.(sessions := db.sessions[sessionId := created][replaced := revoked]), Success(linkId))
        else if SessionRejected(db.sessions, sessionId, tokenHash) then (db, Failure(UniqueViolation))
        else
          var created := Session(userId, tokenHash, now + SESSION_TTL_MS, None, None, None, None, linkId);
          (used.(sessions := db.sessions[sessionId := created]), Success(linkId))
  }

  function RevokeLinksIn(db: Db, consultationId: Id, now: Time): Db {
    db.(links := map id | id in db.links ::
      if db.links[id].identity.consultationId == Some(consultationId) && Active(db.links[id])
      then db.links[id].(revokedAt := Some(now)) else db.links[id])
  }

  // ----- runs -----

  datatype Action =
    | Issue(identity: Identity, id: Id, candidate: Link, sealed: bool, now: Time)
    | BeginExchange(tokenHash: Digest, linkId: Id, id: Id, nonceHash: Digest, csrfHash: Digest, now: Time, clock: Time)
    | Verify(contextOk: bool, nonceHash: Digest, csrfHash: Digest, exchangeId: Id, requesting: Option<Id>,
             sessionId: Id, tokenHash: Digest, now: Time, clock: Time)
    | RevokeLinks(consultationId: Id, now: Time)
    | RevokeSession(sessionId: Id, now: Time)
    | SetAdmins(admins: set<Id>)

  ghost function Step(db: Db, a: Action): Db {
    match a
    case Issue(identity, id, candidate, sealed, now) => IssueIn(db, identity, id, candidate, sealed, now).0
    case BeginExchange(tokenHash, linkId, id, nonceHash, csrfHash, now, clock) =>
      BeginExchangeIn(db, tokenHash, linkId, id, nonceHash, csrfHash, now, clock).0
    case Verify(contextOk, nonceHash, csrfHash, exchangeId, requesting, sessionId, tokenHash, now, clock) =>
      VerifyIn(db, contextOk, nonceHash, csrfHash, exchangeId, requesting, sessionId, tokenHash, now, clock).0
    case RevokeLinks(consultationId, now) => RevokeLinksIn(db, consultationId, now)
    case RevokeSession(sessionId, now) =>
      if sessionId in db.sessions && db.sessions[sessionId].revokedAt.None?
      then db.(sessions := db.sessions[sessionId := db.sessions[sessionId].(revokedAt := Some(now))]) else db
    case SetAdmins(admins) => db.(admins := admins)
  }

  ghost function After(db: Db, run: seq<Action>): Db {
    if run == [] then db else Step(After(db, run[..|run| - 1]), run[|run| - 1])
  }

  function Start(): Db { Db(map[], map[], map[], {}) }

  // ----- one active link for each identity -----

  ghost predicate OneActive(links: map<Id, Link>) {
    forall i, j | i in links && j in links && Active(links[i]) && Active(links[j]) && links[i].identity == links[j].identity ::
      i == j
  }

  lemma NewestWhenOne(links: map<Id, Link>, identity: Identity)
    requires OneActive(links)
    ensures forall id: Id :: ActiveFor(links, identity, id) <==> NewestActive(links, identity) == Some(id)
  {
    forall id: Id | ActiveFor(links, identity, id) ensures NewestActive(links, identity) == Some(id) {
      assert NewestFor(links, identity, id);
    }
  }

  lemma IssueKeepsOneActive(db: Db, identity: Identity, id: Id, candidate: Link, sealed: bool, now: Time)
    requires OneActive(db.links)
    ensures OneActive(IssueIn(db, identity, id, candidate, sealed, now).0.links)
  {
    NewestWhenOne(db.links, identity);
    var after := IssueIn(db, identity, id, candidate, sealed, now).0;
    if after != db {
      forall o: Id | ActiveFor(after.links, identity, o) ensures o == id {
        assert o == id || ActiveFor(db.links, identity, o);
      }
      forall i, j | i in after.links && j in after.links && Active(after.links[i]) && Active(after.links[j])
        && after.links[i].identity == after.links[j].identity ensures i == j
      {
        assert after.links[i].identity == identity ==>
          ActiveFor(after.links, identity, i) && ActiveFor(after.links, identity, j);
      }
    }
  }

  lemma StepKeepsOneActive(db: Db, a: Action)
    requires OneActive(db.links)
    ensures OneActive(Step(db, a).links)
  {
    if a.Issue? {
      IssueKeepsOneActive(db, a.identity, a.id, a.candidate, a.sealed, a.now);
    }
  }

  /** At every moment of every run there is at most one unconsumed, unrevoked link for an identity. */
  lemma {:induction false} OneActiveLinkInEveryRun(run: seq<Action>)
    ensures OneActive(After(Start(), run).links)
  {
    if run != [] {
      OneActiveLinkInEveryRun(run[..|run| - 1]);
      StepKeepsOneActive(After(Start(), run[..|run| - 1]), run[|run| - 1]);
    }
  }

  // ----- one session for each link -----

  ghost predicate SessionsFromLinks(db: Db) {
    && (forall s | s in db.sessions :: db.sessions[s].origin in db.links && db.links[db.sessions[s].origin].consumedAt.Some?)
    && (forall s, t | s in db.sessions && t in db.sessions && s != t :: db.sessions[s].origin != db.sessions[t].origin)
  }

  /** Links stay, and a consumed link stays consumed. */
  ghost predicate LinksStay(db: Db, after: Db) {
    forall l | l in db.links :: l in after.links && (db.links[l].consumedAt.Some? ==> after.links[l].consumedAt.Some?)
      && after.links[l].tokenHash == db.links[l].tokenHash
  }

  lemma StepKeepsLinks(db: Db, a: Action)
    ensures LinksStay(db, Step(db, a))
  {
  }

  lemma StepKeepsSessions(db: Db, a: Action)
    requires SessionsFromLinks(db)
    ensures SessionsFromLinks(Step(db, a))
  {
    StepKeepsLinks(db, a);
  }

  /** Over every run each link creates at most one session. */
  lemma {:induction false} OneSessionPerLinkInEveryRun(run: seq<Action>)
    ensures SessionsFromLinks(After(Start(), run))
  {
    if run != [] {
      OneSessionPerLinkInEveryRun(run[..|run| - 1]);
      StepKeepsSessions(After(Start(), run[..|run| - 1]), run[|run| - 1]);
    }
  }

  /**
   A link that made a session is used up: at any later time its token begins no exchange, no exchange of it
   verifies, and neither call changes anything.
  */
  lemma UsedLinkIsRefused(db: Db, v: Action, run: seq<Action>, b: Action, w: Action)
    requires v.Verify? && b.BeginExchange? && w.Verify?
    requires VerifyIn(db, v.contextOk, v.nonceHash, v.csrfHash, v.exchangeId, v.requesting, v.sessionId, v.tokenHash,
                      v.now, v.clock).1.Success?
    ensures var link := db.exchanges[v.exchangeId].linkId;
      var later := After(Step(db, v), run);
      && (b.linkId == link ==> Step(later, b) == later)
      && (b.linkId == link ==>
            BeginExchangeIn(later, b.tokenHash, b.linkId, b.id, b.nonceHash, b.csrfHash, b.now, b.clock).1.Failure?)
      && (w.exchangeId in later.exchanges && later.exchanges[w.exchangeId].linkId == link ==> Step(later, w) == later)
  {
    RunKeepsLinks(Step(db, v), run);
  }

  lemma {:induction false} RunKeepsLinks(db: Db, run: seq<Action>)
    ensures LinksStay(db, After(db, run))
  {
    if run != [] {
      RunKeepsLinks(db, run[..|run| - 1]);
      StepKeepsLinks(After(db, run[..|run| - 1]), run[|run| - 1]);
    }
  }

  /**
   A verification that succeeds adds one session for the link's user and consumes link and exchange.  For a
   re-authentication it revokes exactly the session the link is bound to, which asked; otherwise no session is
   touched.
  */
  lemma VerificationEffect(db: Db, v: Action)
    requires v.Verify?
    requires VerifyIn(db, v.contextOk, v.nonceHash, v.csrfHash, v.exchangeId, v.requesting, v.sessionId, v.tokenHash,
                      v.now, v.clock).1.Success?
    ensures var after := Step(db, v);
      var link := db.links[db.exchanges[v.exchangeId].linkId];
      && v.sessionId !in db.sessions && after.sessions.Keys == db.sessions.Keys + {v.sessionId}
      && link.identity.userId == Some(after.sessions[v.sessionId].userId)
      && Active(link) && !Active(after.links[db.exchanges[v.exchangeId].linkId])
      && after.exchanges[v.exchangeId].consumedAt.Some?
      && (after.sessions[v.sessionId].reauthenticatedAt.Some? <==> link.identity.purpose.ArchiveDeleteReauth?)
      && (forall s | s in db.sessions ::
            if link.identity.purpose.ArchiveDeleteReauth? && v.requesting == Some(s)
            then db.sessions[s].revokedAt.None? && after.sessions[s].revokedAt == Some(v.clock)
                 && after.sessions[s].replacedBy == Some(v.sessionId) && db.sessions[s].userId in db.admins
            else after.sessions[s] == db.sessions[s])
  {
  }

  // ----- the rows, statement by statement -----

  class AuthRows {
    var links: map<Id, Link>
    var exchanges: map<Id, Exchange>
    var sessions: map<Id, Session>
    var admins: set<Id>

    function Contents(): Db
      reads this
    {
      Db(links, exchanges, sessions, admins)
    }

    constructor ()
      ensures Contents() == Start()
    {
      links, exchanges, sessions, admins := map[], map[], map[], {};
    }

    /** The newest active link of an identity. */
    method FindNewest(identity: Identity) returns (newest: Option<Id>)
      ensures newest == NewestActive(links, identity)
    {
      newest := None;
      var rest := links.Keys;
      while rest != {}
        invariant rest <= links.Keys
        invariant newest.Some? ==> ActiveFor(links, identity, newest.value) && newest.value !in rest
        invariant forall o | o in links && o !in rest && ActiveFor(links, identity, o) ::
          newest.Some? && (o == newest.value || Newer(links, newest.value, o))
        decreases |rest|
      {
        var id :| id in rest;
        rest := rest - {id};
        if links[id].identity == identity && Active(links[id]) && (newest.None? || Newer(links, id, newest.value)) {
          newest := Some(id);
        }
      }
      if newest.Some? {
        assert NewestFor(links, identity, newest.value);
      }
    }

    method GetOrCreateActiveLink(identity: Identity, id: Id, candidate: Link, sealed: bool, now: Time)
      returns (result: Result<(Id, bool), Error>)
      modifies this`links
      ensures (Contents(), result) == IssueIn(old(Contents()), identity, id, candidate, sealed, now)
    {
      if candidate.identity != identity || !Active(candidate) || candidate.expiresAt <= now || !sealed {
        return Failure(InvalidCandidate);
      }
      var before := links;
      var current := FindNewest(identity);
      if current.Some? {
        if links[current.value].expiresAt > now { return Success((current.value, false)); }
        links := links[current.value := links[current.value].(revokedAt := Some(now))];
      }
      var link := candidate.(createdAt := now);
      if LinkRejected(links, id, link) {
        links := before;
        return Failure(UniqueViolation);
      }
      links := links[id := link];
      return Success((id, true));
    }

    method BeginExchange(tokenHash: Digest, linkId: Id, id: Id, nonceHash: Digest, csrfHash: Digest, now: Time, clock: Time)
      returns (result: Result<bool, Error>)
      modifies this`exchanges
      ensures (Contents(), result)
        == BeginExchangeIn(old(Contents()), tokenHash, linkId, id, nonceHash, csrfHash, now, clock)
    {
      if !HasToken(links, linkId, tokenHash) || !Usable(links[linkId], now) { return Failure(InvalidOrExpiredLink); }
      var before := exchanges;
      exchanges := KeptExchanges(exchanges, linkId, clock);
      if ExchangeRejected(exchanges, id, linkId, nonceHash) {
        exchanges := before;
        return Failure(InvalidOrExpiredLink);
      }
      exchanges := exchanges[id := Exchange(linkId, nonceHash, csrfHash, now + EXCHANGE_TTL_MS, None)];
      return Success(true);
    }

    /** Both updates of the one statement; the answer is whether both found their row. */
    method ConsumeExchangeAndLink(exchangeId: Id, linkId: Id, now: Time) returns (consumed: bool)
      modifies this`exchanges, this`links
      ensures consumed == (exchangeId in old(exchanges) && old(exchanges)[exchangeId].consumedAt.None?
                           && linkId in old(links) && Active(old(links)[linkId]))
      ensures consumed ==>
        && exchanges == old(exchanges)[exchangeId := old(exchanges)[exchangeId].(consumedAt := Some(now))]
        && links == old(links)[linkId := old(links)[linkId].(consumedAt := Some(now))]
    {
      var first := exchangeId in exchanges && exchanges[exchangeId].consumedAt.None?;
      var second := linkId in links && Active(links[linkId]);
      if first { exchanges := exchanges[exchangeId := exchanges[exchangeId].(consumedAt := Some(now))]; }
      if second { links := links[linkId := links[linkId].(consumedAt := Some(now))]; }
      consumed := first && second;
    }

    method VerifyExchange(
      contextOk: bool, nonceHash: Digest, csrfHash: Digest, exchangeId: Id, requesting: Option<Id>, sessionId: Id,
      tokenHash: Digest, now: Time, clock: Time) returns (result: Result<Id, Error>)
      modifies this
      ensures (Contents(), result)
        == VerifyIn(old(Contents()), contextOk, nonceHash, csrfHash, exchangeId, requesting, sessionId, tokenHash, now, clock)
    {
      var was := (links, exchanges, sessions);
      if !contextOk { return Failure(InvalidContext); }
      if exchangeId !in exchanges || exchanges[exchangeId].nonceHash != nonceHash
         || exchanges[exchangeId].consumedAt.Some? || exchanges[exchangeId].expiresAt <= now {
        return Failure(InvalidExchange);
      }
      if exchanges[exchangeId].csrfHash != csrfHash { return Failure(InvalidContext); }
      var linkId := exchanges[exchangeId].linkId;
      if linkId !in links || !Verifiable(links[linkId], requesting, now) { return Failure(InvalidExchange); }
      var link := links[linkId];
      var consumed := ConsumeExchangeAndLink(exchangeId, linkId, now);
      assert consumed;
      var userId, reauth := link.identity.userId.value, link.identity.purpose.ArchiveDeleteReauth?;
      if reauth && !Replaceable(Contents(), link.identity.sessionId.value, userId, clock) {
        links, exchanges := was.0, was.1;
        return Failure(InvalidBinding);
      }
      if SessionRejected(sessions, sessionId, tokenHash) {
        links, exchanges := was.0, was.1;
        return Failure(UniqueViolation);
      }
      sessions := sessions[sessionId := Session(
        userId, tokenHash, now + SESSION_TTL_MS, if reauth then Some(now) else None,
        if reauth then link.identity.consultationId else None, None, None, linkId)];
      if reauth {
        var replaced := link.identity.sessionId.value;
        sessions := sessions[replaced := sessions[replaced].(revokedAt := Some(clock), replacedBy := Some(sessionId))];
      }
      return Success(linkId);
    }
  }
}
