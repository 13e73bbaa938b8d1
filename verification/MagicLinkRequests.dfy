/** Rate limiting of magic-link requests: a sliding window over rows that are deleted as they age. */
module MagicLinkRequests {
  import opened Wrappers

  type Digest = nat

  const WINDOW_MS := 900_000
  const EMAIL_LIMIT := 5
  const ADDRESS_LIMIT := 20

  datatype Request = Request(email: Option<Digest>, address: Digest, at: int)

  function Later(rows: seq<Request>, since: int): seq<Request> {
    if rows == [] then []
    else
      var rest := Later(rows[..|rows| - 1], since);
      if rows[|rows| - 1].at > since then rest + [rows[|rows| - 1]] else rest
  }

  function CountAddress(rows: seq<Request>, address: Digest): nat {
    if rows == [] then 0
    else CountAddress(rows[..|rows| - 1], address) + if rows[|rows| - 1].address == address then 1 else 0
  }

  function CountEmail(rows: seq<Request>, email: Digest): nat {
    if rows == [] then 0
    else CountEmail(rows[..|rows| - 1], email) + if rows[|rows| - 1].email == Some(email) then 1 else 0
  }

  /** Whether a request is admitted over the rows that survive the deletion. */
  predicate Admits(kept: seq<Request>, email: Option<Digest>, address: Digest) {
    && CountAddress(kept, address) < ADDRESS_LIMIT
    && (email.None? || CountEmail(kept, email.value) < EMAIL_LIMIT)
  }

  class RequestTable {
    var rows: seq<Request>

    constructor ()
      ensures rows == []
    {
      rows := [];
    }

    method Admit(email: Option<Digest>, address: Digest, now: int) returns (admitted: bool)
      modifies this
      ensures var kept := Later(old(rows), now - WINDOW_MS);
        && admitted == Admits(kept, email, address)
        && rows == if admitted then kept + [Request(email, address, now)] else kept
    {
      var since := now - WINDOW_MS;
      rows := Later(rows, since);
      LaterTwice(old(rows), since, since);
      var counted := Later(rows, since);
      if CountAddress(counted, address) >= ADDRESS_LIMIT
         || (email.Some? && CountEmail(counted, email.value) >= EMAIL_LIMIT) {
        return false;
      }
      rows := rows + [Request(email, address, now)];
      return true;
    }
  }

  lemma {:induction false} LaterTwice(rows: seq<Request>, a: int, b: int)
    requires a <= b
    ensures Later(Later(rows, a), b) == Later(rows, b)
  {
    if rows != [] {
      LaterTwice(rows[..|rows| - 1], a, b);
      var rest, last := Later(rows[..|rows| - 1], a), rows[|rows| - 1];
      if last.at > a {
        assert (rest + [last])[..|rest|] == rest;
      }
    }
  }

  datatype Call = Call(email: Option<Digest>, address: Digest, now: int)

  /** The table after some calls, and everything that was ever admitted. */
  datatype History = History(rows: seq<Request>, admitted: seq<Request>)

  function Next(h: History, c: Call): History {
    var kept := Later(h.rows, c.now - WINDOW_MS);
    var entry := [Request(c.email, c.address, c.now)];
    if Admits(kept, c.email, c.address) then History(kept + entry, h.admitted + entry)
    else History(kept, h.admitted)
  }

  function After(calls: seq<Call>): History {
    if calls == [] then History([], []) else Next(After(calls[..|calls| - 1]), calls[|calls| - 1])
  }

  predicate ClockRuns(calls: seq<Call>) {
    forall i, j | 0 <= i < j < |calls| :: calls[i].now <= calls[j].now
  }

  /** The requests in the half-open window of fifteen minutes that starts just after `a`. */
  function InWindow(rows: seq<Request>, a: int): seq<Request> {
    if rows == [] then []
    else
      var rest := InWindow(rows[..|rows| - 1], a);
      if a < rows[|rows| - 1].at <= a + WINDOW_MS then rest + [rows[|rows| - 1]] else rest
  }

  lemma {:induction false} LaterAppend(rows: seq<Request>, r: Request, since: int)
    ensures Later(rows + [r], since) == Later(rows, since) + if r.at > since then [r] else []
  {
    assert (rows + [r])[..|rows|] == rows;
  }

  /** The rows are the admitted requests younger than the deletion at `last`, which was after all of them. */
  ghost predicate Recent(h: History, last: int) {
    h.rows == Later(h.admitted, last - WINDOW_MS) && forall r | r in h.admitted :: r.at <= last
  }

  lemma RecentPush(admitted: seq<Request>, entry: Request)
    requires forall r | r in admitted :: r.at <= entry.at
    ensures Recent(History(Later(admitted, entry.at - WINDOW_MS) + [entry], admitted + [entry]), entry.at)
  {
    LaterAppend(admitted, entry, entry.at - WINDOW_MS);
  }

  lemma KeptIsRecent(h: History, last: int, now: int)
    requires Recent(h, last) && last <= now
    ensures Later(h.rows, now - WINDOW_MS) == Later(h.admitted, now - WINDOW_MS)
    ensures Recent(History(Later(h.rows, now - WINDOW_MS), h.admitted), now)
  {
    LaterTwice(h.admitted, last - WINDOW_MS, now - WINDOW_MS);
  }

  /** What a call may make of the history. */
  lemma NextIs(h: History, c: Call)
    ensures var kept, entry := Later(h.rows, c.now - WINDOW_MS), Request(c.email, c.address, c.now);
      Next(h, c) == if Admits(kept, c.email, c.address) then History(kept + [entry], h.admitted + [entry])
                    else History(kept, h.admitted)
  {
  }

  lemma NextIsRecent(h: History, last: int, c: Call)
    requires Recent(h, last) && last <= c.now
    ensures Recent(Next(h, c), c.now)
  {
    KeptIsRecent(h, last, c.now);
    RecentPush(h.admitted, Request(c.email, c.address, c.now));
    NextIs(h, c);
  }

  /** The table holds exactly the admitted requests that are younger than the last deletion. */
  lemma {:induction false} TableIsRecentPast(calls: seq<Call>)
    requires ClockRuns(calls)
    ensures calls != [] ==> Recent(After(calls), calls[|calls| - 1].now)
  {
    if calls != [] {
      var before := calls[..|calls| - 1];
      var c := calls[|calls| - 1];
      TableIsRecentPast(before);
      NextIsRecent(After(before), if before == [] then c.now else before[|before| - 1].now, c);
    }
  }

  /** A window that ends no earlier than `now` holds no more than the rows younger than its length. */
  lemma {:induction false} WindowIsKept(rows: seq<Request>, a: int, since: int, address: Digest, email: Digest)
    requires since <= a
    ensures CountAddress(InWindow(rows, a), address) <= CountAddress(Later(rows, since), address)
    ensures CountEmail(InWindow(rows, a), email) <= CountEmail(Later(rows, since), email)
  {
    if rows != [] {
      var init, last := rows[..|rows| - 1], rows[|rows| - 1];
      WindowIsKept(init, a, since, address, email);
      CountAppend(InWindow(init, a), last, address, email);
      CountAppend(Later(init, since), last, address, email);
    }
  }

  lemma {:induction false} CountAppend(rows: seq<Request>, r: Request, address: Digest, email: Digest)
    ensures CountAddress(rows + [r], address) == CountAddress(rows, address) + if r.address == address then 1 else 0
    ensures CountEmail(rows + [r], email) == CountEmail(rows, email) + if r.email == Some(email) then 1 else 0
  {
    assert (rows + [r])[..|rows|] == rows;
  }

  /** In the window after `a`, at most 20 requests of one address and 5 for one e-mail. */
  ghost predicate WithinLimits(admitted: seq<Request>, a: int, address: Digest, email: Digest) {
    && CountAddress(InWindow(admitted, a), address) <= ADDRESS_LIMIT
    && CountEmail(InWindow(admitted, a), email) <= EMAIL_LIMIT
  }

  lemma WindowPush(rows: seq<Request>, r: Request, a: int)
    ensures InWindow(rows + [r], a) == if a < r.at <= a + WINDOW_MS then InWindow(rows, a) + [r] else InWindow(rows, a)
  {
    assert (rows + [r])[..|rows|] == rows;
  }

  /** One more admitted request: the window had room for it. */
  lemma AdmittedFits(admitted: seq<Request>, entry: Request, a: int, address: Digest, email: Digest)
    requires Admits(Later(admitted, entry.at - WINDOW_MS), entry.email, entry.address)
    requires WithinLimits(admitted, a, address, email)
    ensures WithinLimits(admitted + [entry], a, address, email)
  {
    WindowPush(admitted, entry, a);
    if a < entry.at <= a + WINDOW_MS {
      var window, kept := InWindow(admitted, a), Later(admitted, entry.at - WINDOW_MS);
      WindowIsKept(admitted, a, entry.at - WINDOW_MS, address, email);
      CountAppend(window, entry, address, email);
      assert entry.address == address ==> CountAddress(kept, address) < ADDRESS_LIMIT;
      assert entry.email == Some(email) ==> CountEmail(kept, email) < EMAIL_LIMIT;
    }
  }

  /** What is admitted next, said of everything admitted before. */
  lemma NextOfPast(h: History, last: int, c: Call)
    requires Recent(h, last) && last <= c.now
    ensures Next(h, c).admitted ==
      if Admits(Later(h.admitted, c.now - WINDOW_MS), c.email, c.address)
      then h.admitted + [Request(c.email, c.address, c.now)] else h.admitted
  {
    KeptIsRecent(h, last, c.now);
    NextIs(h, c);
  }

  lemma NextKeepsLimits(h: History, last: int, c: Call, a: int, address: Digest, email: Digest)
    requires Recent(h, last) && last <= c.now && WithinLimits(h.admitted, a, address, email)
    ensures WithinLimits(Next(h, c).admitted, a, address, email)
  {
    NextOfPast(h, last, c);
    var kept := Later(h.admitted, c.now - WINDOW_MS);
    if Admits(kept, c.email, c.address) {
      AdmittedFits(h.admitted, Request(c.email, c.address, c.now), a, address, email);
    }
  }

  /** With a clock that does not run backwards, every window of fifteen minutes holds at most 20
      admitted requests of one address and 5 for one e-mail, although old rows are deleted. */
  lemma {:induction false} WindowLimits(calls: seq<Call>, a: int, address: Digest, email: Digest)
    requires ClockRuns(calls)
    ensures WithinLimits(After(calls).admitted, a, address, email)
  {
    if calls != [] {
      var before := calls[..|calls| - 1];
      var c := calls[|calls| - 1];
      WindowLimits(before, a, address, email);
      TableIsRecentPast(before);
      NextKeepsLimits(After(before), if before == [] then c.now else before[|before| - 1].now, c, a, address, email);
    }
  }

  /** All admitted requests are at or before the last call, so those younger than a window are those in it. */
  lemma {:induction false} YoungerIsInWindow(rows: seq<Request>, now: int)
    requires forall r | r in rows :: r.at <= now
    ensures InWindow(rows, now - WINDOW_MS) == Later(rows, now - WINDOW_MS)
  {
    if rows != [] {
      YoungerIsInWindow(rows[..|rows| - 1], now);
      assert rows[|rows| - 1] in rows;
    }
  }

  /** The time of the last call before `c`, or of `c` when it is the first. */
  function LastTime(calls: seq<Call>, c: Call): int { if calls == [] then c.now else calls[|calls| - 1].now }

  lemma PastIsRecent(calls: seq<Call>, c: Call)
    requires ClockRuns(calls + [c])
    ensures Recent(After(calls), LastTime(calls, c)) && LastTime(calls, c) <= c.now
  {
    assert (calls + [c])[|calls|] == c && forall i | 0 <= i < |calls| :: (calls + [c])[i] == calls[i];
    TableIsRecentPast(calls);
    if calls != [] { assert (calls + [c])[|calls| - 1].now <= (calls + [c])[|calls|].now; }
  }

  lemma AfterPush(calls: seq<Call>, c: Call)
    ensures After(calls + [c]) == Next(After(calls), c)
  {
    assert (calls + [c])[..|calls|] == calls;
  }

  lemma AdmitsMeans(rows: seq<Request>, c: Call)
    ensures Admits(rows, c.email, c.address) <==>
      CountAddress(rows, c.address) < 20 && (c.email.Some? ==> CountEmail(rows, c.email.value) < 5)
  {
  }

  /** The window before `c` has room for it. */
  predicate HasRoom(window: seq<Request>, c: Call) {
    CountAddress(window, c.address) < 20 && (c.email.Some? ==> CountEmail(window, c.email.value) < 5)
  }

  lemma NextHasRoom(h: History, last: int, c: Call)
    requires Recent(h, last) && last <= c.now
    ensures Next(h, c).admitted ==
      if HasRoom(InWindow(h.admitted, c.now - WINDOW_MS), c) then h.admitted + [Request(c.email, c.address, c.now)] else h.admitted
  {
    YoungerIsInWindow(h.admitted, c.now);
    NextOfPast(h, last, c);
    AdmitsMeans(Later(h.admitted, c.now - WINDOW_MS), c);
  }

  /**
   A request is admitted if and only if, of all those admitted in the fifteen minutes before it, fewer than 20 came
   from its address and fewer than 5 were for its e-mail.
  */
  lemma AdmittedIff(calls: seq<Call>, c: Call)
    requires ClockRuns(calls + [c])
    ensures var past := After(calls).admitted;
      After(calls + [c]).admitted ==
        if HasRoom(InWindow(past, c.now - 900_000), c) then past + [Request(c.email, c.address, c.now)] else past
  {
    AfterPush(calls, c);
    PastIsRecent(calls, c);
    NextHasRoom(After(calls), LastTime(calls, c), c);
  }

  // ----- the length is exact: a window closed at both ends may hold one more -----

  /** The requests from `first` to `last`, both ends included. */
  function InClosed(rows: seq<Request>, first: int, last: int): seq<Request> {
    if rows == [] then []
    else
      var rest := InClosed(rows[..|rows| - 1], first, last);
      if first <= rows[|rows| - 1].at <= last then rest + [rows[|rows| - 1]] else rest
  }

  predicate AddressWithin(calls: seq<Call>, first: int, length: nat, address: Digest) {
    CountAddress(InClosed(After(calls).admitted, first, first + length), address) <= ADDRESS_LIMIT
  }

  predicate EmailWithin(calls: seq<Call>, first: int, length: nat, email: Digest) {
    CountEmail(InClosed(After(calls).admitted, first, first + length), email) <= EMAIL_LIMIT
  }

  /** A closed window shorter than fifteen minutes lies in the half-open one that starts a millisecond earlier. */
  lemma {:induction false} ClosedInWindow(rows: seq<Request>, first: int, length: nat, address: Digest, email: Digest)
    requires length < WINDOW_MS
    ensures CountAddress(InClosed(rows, first, first + length), address) <= CountAddress(InWindow(rows, first - 1), address)
    ensures CountEmail(InClosed(rows, first, first + length), email) <= CountEmail(InWindow(rows, first - 1), email)
  {
    if rows != [] {
      var init, last := rows[..|rows| - 1], rows[|rows| - 1];
      ClosedInWindow(init, first, length, address, email);
      CountAppend(InClosed(init, first, first + length), last, address, email);
      CountAppend(InWindow(init, first - 1), last, address, email);
    }
  }

  function Burst(n: nat, email: Option<Digest>): seq<Call> { seq(n, i => Call(email, 0, 0)) }

  function BurstRows(n: nat, email: Option<Digest>): seq<Request> { seq(n, i => Request(email, 0, 0)) }

  function LimitOf(email: Option<Digest>): nat { if email.None? then ADDRESS_LIMIT else EMAIL_LIMIT }

  lemma {:induction false} BurstCounts(n: nat, email: Option<Digest>)
    ensures CountAddress(BurstRows(n, email), 0) == n
    ensures email.Some? ==> CountEmail(BurstRows(n, email), email.value) == n
    ensures Later(BurstRows(n, email), -WINDOW_MS) == BurstRows(n, email) && Later(BurstRows(n, email), 0) == []
  {
    if n > 0 {
      BurstCounts(n - 1, email);
      assert BurstRows(n, email)[..n - 1] == BurstRows(n - 1, email);
      assert BurstRows(n, email) == BurstRows(n - 1, email) + [Request(email, 0, 0)];
    }
  }

  lemma NextAdmits(h: History, c: Call, kept: seq<Request>)
    requires Later(h.rows, c.now - WINDOW_MS) == kept && Admits(kept, c.email, c.address)
    ensures Next(h, c) ==
      History(kept + [Request(c.email, c.address, c.now)], h.admitted + [Request(c.email, c.address, c.now)])
  {
  }

  lemma BurstStep(n: nat, email: Option<Digest>)
    requires n < LimitOf(email)
    ensures Next(History(BurstRows(n, email), BurstRows(n, email)), Call(email, 0, 0))
      == History(BurstRows(n + 1, email), BurstRows(n + 1, email))
  {
    var rows := BurstRows(n, email);
    BurstCounts(n, email);
    NextAdmits(History(rows, rows), Call(email, 0, 0), rows);
    assert BurstRows(n + 1, email) == rows + [Request(email, 0, 0)];
  }

  lemma {:induction false} BurstAdmitted(n: nat, email: Option<Digest>)
    requires n <= LimitOf(email)
    ensures After(Burst(n, email)) == History(BurstRows(n, email), BurstRows(n, email))
  {
    if n > 0 {
      BurstAdmitted(n - 1, email);
      BurstStep(n - 1, email);
      assert Burst(n, email)[..n - 1] == Burst(n - 1, email);
    }
  }

  /** All requests come from one address for one e-mail, within fifteen minutes, both ends included. */
  ghost predicate OneClosedWindow(rows: seq<Request>, email: Option<Digest>) {
    forall r | r in rows :: r.address == 0 && r.email == email && 0 <= r.at <= WINDOW_MS
  }

  /** As many requests as the limit at time 0, and one more fifteen minutes later. */
  function OneMore(email: Option<Digest>): seq<Call> { Burst(LimitOf(email), email) + [Call(email, 0, WINDOW_MS)] }

  lemma OneMoreAdmitted(email: Option<Digest>)
    ensures After(OneMore(email)).admitted == BurstRows(LimitOf(email), email) + [Request(email, 0, WINDOW_MS)]
  {
    var burst := Burst(LimitOf(email), email);
    BurstAdmitted(LimitOf(email), email);
    BurstCounts(LimitOf(email), email);
    assert OneMore(email)[..|burst|] == burst;
    NextAdmits(After(burst), Call(email, 0, WINDOW_MS), []);
  }

  /** All of them are admitted. */
  lemma OneMoreInClosedWindow(email: Option<Digest>) returns (calls: seq<Call>)
    ensures ClockRuns(calls) && OneClosedWindow(After(calls).admitted, email)
    ensures |After(calls).admitted| == LimitOf(email) + 1
  {
    calls := OneMore(email);
    OneMoreAdmitted(email);
  }

  lemma TwentyOneInClosedWindow() returns (calls: seq<Call>)
    ensures ClockRuns(calls) && OneClosedWindow(After(calls).admitted, None)
    ensures |After(calls).admitted| == ADDRESS_LIMIT + 1
  {
    calls := OneMoreInClosedWindow(None);
  }

  lemma {:induction false} AllCounted(rows: seq<Request>, email: Option<Digest>, length: nat)
    requires OneClosedWindow(rows, email) && length >= WINDOW_MS
    ensures InClosed(rows, 0, length) == rows && CountAddress(rows, 0) == |rows|
    ensures email.Some? ==> CountEmail(rows, email.value) == |rows|
  {
    if rows != [] {
      AllCounted(rows[..|rows| - 1], email, length);
      assert rows == rows[..|rows| - 1] + [rows[|rows| - 1]];
    }
  }

  /** Every closed window of a length is within a limit if and only if it is shorter than fifteen minutes. */
  lemma ClosedLimitsIff(length: nat)
    ensures (forall calls, first, address | ClockRuns(calls) :: AddressWithin(calls, first, length, address))
      <==> length < WINDOW_MS
    ensures (forall calls, first, email | ClockRuns(calls) :: EmailWithin(calls, first, length, email))
      <==> length < WINDOW_MS
  {
    if length < WINDOW_MS {
      forall calls, first, digest | ClockRuns(calls)
        ensures AddressWithin(calls, first, length, digest) && EmailWithin(calls, first, length, digest)
      {
        WindowLimits(calls, first - 1, digest, digest);
        ClosedInWindow(After(calls).admitted, first, length, digest, digest);
      }
    } else {
      var calls := OneMoreInClosedWindow(None);
      AllCounted(After(calls).admitted, None, length);
      assert !AddressWithin(calls, 0, length, 0);
      calls := OneMoreInClosedWindow(Some(0));
      AllCounted(After(calls).admitted, Some(0), length);
      assert !EmailWithin(calls, 0, length, 0);
    }
  }
}
