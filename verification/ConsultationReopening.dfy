/**
 A run in which an ended consultation becomes finalizing again: it is ended by force at its deadline while the
 worker epoch is open, and the worker then reports a failure.
*/
module ConsultationReopening {
  import opened Lifecycle
  import opened Wrappers

  import opened Consultations

  const EMPLOYEE := NewSlot(11, Employee, 1)
  const CUSTOMER := NewSlot(12, Customer, 2)
  const UNUSED: Result<(Selection, string), Error> := Failure(NotFound)

  const JOINED := [
    SetPreferences(1, "A", "en", UNUSED, 0), SetPreferences(2, "B", "de", Success((0, "h")), 0),
    GiveConsent(1, "h", "c", 0), GiveConsent(2, "h", "c", 0), Preflight(7, 1, true), CommitJoin(7, "room", 9, 0)]
  const FORCED := [ReserveWorker, Grant(11, 5, 0), End(1, 0), ForceFinish(900_000)]
  const REPORTED := [FailWorker(900_001)]

  /** The state after a run whose last step is `a`. */
  lemma AfterLast(w: World, run: seq<Action>, n: nat)
    requires n < |run|
    ensures After(w, run[..n + 1]) == Step(After(w, run[..n]), run[n])
  {
    assert run[..n + 1][..n] == run[..n];
  }

  lemma {:induction false} AfterBoth(w: World, run: seq<Action>, more: seq<Action>)
    ensures After(w, run + more) == After(After(w, run), more)
  {
    if more == [] {
      assert run + more == run;
    } else {
      AfterBoth(w, run, more[..|more| - 1]);
      assert (run + more)[..|run + more| - 1] == run + more[..|more| - 1];
    }
  }

  function Slots(consent: Option<Consent>): (Slot, Slot) {
    (EMPLOYEE.(displayName := Some("A"), language := Some("en"), consent := consent),
     CUSTOMER.(displayName := Some("B"), language := Some("de"), consent := consent))
  }

  /** Both sides have their preferences and a selection was resolved. */
  function Selected(): World {
    var start := Created(3, EMPLOYEE, CUSTOMER, 0);
    start.(value := start.value.(first := Slots(None).0, second := Slots(None).1, selection := Some(0),
                                 snapshotHash := Some("h")))
  }

  /** Both sides consented. */
  function Consented(): World {
    var slots := Slots(Some(Consent("c", "h", 0)));
    Selected().(value := Selected().value.(first := slots.0, second := slots.1))
  }

  /** The employee joined. */
  function Joined(): World {
    Consented().(
      value := Consented().value.(state := Ready, generation := 1, roomName := Some("room"),
                                  workerIdentity := Some(9), readyDeadlineAt := Some(300_000)),
      outbox := [ProvisioningRequested(1, 0, "h")], checked := {0}, joins := map[7 := Some("h")])
  }

  lemma Trimmed()
    ensures Trim("A") == "A" && Trim("B") == "B" && Trim("en") == "en" && Trim("de") == "de"
  {
  }

  lemma AfterPreferences()
    ensures After(Created(3, EMPLOYEE, CUSTOMER, 0), JOINED[..2]) == Selected()
  {
    var start := Created(3, EMPLOYEE, CUSTOMER, 0);
    Trimmed();
    AfterLast(start, JOINED, 0);
    AfterLast(start, JOINED, 1);
    assert JOINED[..0] == [];
  }

  lemma AfterFirstConsent()
    ensures After(Created(3, EMPLOYEE, CUSTOMER, 0), JOINED[..3])
      == Selected().(value := Selected().value.(first := Slots(Some(Consent("c", "h", 0))).0))
  {
    AfterPreferences();
    AfterLast(Created(3, EMPLOYEE, CUSTOMER, 0), JOINED, 2);
  }

  lemma AfterConsents()
    ensures After(Created(3, EMPLOYEE, CUSTOMER, 0), JOINED[..4]) == Consented()
  {
    var start := Created(3, EMPLOYEE, CUSTOMER, 0);
    AfterFirstConsent();
    AfterLast(start, JOINED, 3);
  }

  lemma AfterPreflight()
    ensures After(Created(3, EMPLOYEE, CUSTOMER, 0), JOINED[..5])
      == Consented().(checked := {0}, joins := map[7 := Some("h")])
  {
    AfterConsents();
    AfterLast(Created(3, EMPLOYEE, CUSTOMER, 0), JOINED, 4);
  }

  lemma AfterJoined()
    ensures After(Created(3, EMPLOYEE, CUSTOMER, 0), JOINED) == Joined()
  {
    var start := Created(3, EMPLOYEE, CUSTOMER, 0);
    AfterPreflight();
    AfterLast(start, JOINED, 5);
    assert JOINED[..6] == JOINED;
  }

  lemma AfterGranted()
    ensures var w := After(Joined(), FORCED[..2]);
      w.value.state.Live? && w.value.generation == 1 && w.worker == OpenEpoch(1)
      && w.value.first == Joined().value.first.(egressId := Some(5), publicationGranted := true)
  {
    AfterLast(Joined(), FORCED, 0);
    AfterLast(Joined(), FORCED, 1);
    assert FORCED[..0] == [];
  }

  lemma AfterForced()
    ensures var w := After(Joined(), FORCED);
      w.value.state.Ended? && w.value.generation == 1 && w.worker == OpenEpoch(1)
  {
    AfterGranted();
    AfterLast(Joined(), FORCED, 2);
    AfterLast(Joined(), FORCED, 3);
    assert FORCED[..4] == FORCED;
  }

  /** Ended by force at the deadline, the consultation is taken back to finalizing by the failed worker. */
  lemma ForcedEndIsReopened()
    ensures After(Created(3, EMPLOYEE, CUSTOMER, 0), JOINED + FORCED).value.state.Ended?
    ensures After(Created(3, EMPLOYEE, CUSTOMER, 0), JOINED + FORCED + REPORTED).value.state.Finalizing?
  {
    var start := Created(3, EMPLOYEE, CUSTOMER, 0);
    AfterBoth(start, JOINED, FORCED);
    AfterBoth(start, JOINED + FORCED, REPORTED);
    AfterJoined();
    AfterForced();
    AfterLast(After(Joined(), FORCED), REPORTED, 0);
    assert REPORTED[..0] == [] && REPORTED[..1] == REPORTED;
  }
}
