/**
 * The alert outbox (ClaimOutboxAlerts and FinalizeOutboxAlert in
 * internal/database/bun/store_scheduler.go) drained by any number of dispatchers
 * (internal/scheduler/dispatcher.go). Times are whole milliseconds.
 */
module Outbox {
  import opened Types

  type RowId = string

  datatype Row = Row(attempts: nat, nextAttempt: int)

  /** A claimed row in a dispatcher's hands; `attempts` includes the claim itself. */
  datatype Copy = Copy(id: RowId, at: int, attempts: nat)

  function Pow2(n: nat): nat { if n == 0 then 1 else 2 * Pow2(n - 1) }

  /** Time until the next attempt for a row claimed `attempts` times before. */
  function Backoff(attempts: nat): int {
    (if 30 * Pow2(attempts) < 1800 then 30 * Pow2(attempts) else 1800) * SECOND
  }

  const MAX_ATTEMPTS: nat := 8

  // ---------- The table and its dispatchers ----------

  datatype Final = Final(id: RowId, attempts: nat, sent: bool)

  /** Besides the table and the copies in flight: claim times, successful sends, finalizations, cascades. */
  datatype Outbox = Outbox(
    rows: map<RowId, Row>,
    held: multiset<Copy>,
    claims: map<RowId, seq<int>>,
    sent: multiset<RowId>,
    finals: set<Final>,
    removed: set<RowId>)

  datatype Event =
    | Enqueue(id: RowId, at: int)
    | Claim(now: int, ids: set<RowId>)
    | Settle(copy: Copy, sent: bool, stored: bool)     // one delivery; did its finalization commit, if tried?
    | Drop(copy: Copy)                                 // the dispatcher died
    | Remove(id: RowId)                                // deleted with its alert, channel or recipient

  /** Row ids are generated fresh; claims take only rows that are due; copies are settled once. */
  predicate Enabled(s: Outbox, e: Event) {
    match e
    case Enqueue(id, _) => id !in s.claims
    case Claim(now, ids) => forall id :: id in ids ==> id in s.rows && s.rows[id].nextAttempt <= now
    case Settle(copy, _, _) => copy in s.held
    case Drop(copy) => copy in s.held
    case Remove(id) => id in s.rows
  }

  function Bumped(rows: map<RowId, Row>, ids: set<RowId>, now: int): map<RowId, Row> {
    map k | k in rows :: if k in ids then Row(rows[k].attempts + 1, now + Backoff(rows[k].attempts)) else rows[k]
  }

  function Copies(rows: map<RowId, Row>, ids: set<RowId>, now: int): set<Copy> {
    set k | k in ids && k in rows :: Copy(k, now, rows[k].attempts + 1)
  }

  function Noted(claims: map<RowId, seq<int>>, ids: set<RowId>, now: int): map<RowId, seq<int>> {
    map k | k in claims :: if k in ids then claims[k] + [now] else claims[k]
  }

  predicate Finalizes(copy: Copy, sent: bool) { sent || copy.attempts >= MAX_ATTEMPTS }

  function Step(s: Outbox, e: Event): Outbox {
    match e
    case Enqueue(id, at) => s.(rows := s.rows[id := Row(0, at)], claims := s.claims[id := []])
    case Claim(now, ids) =>
      s.(rows := Bumped(s.rows, ids, now),
         held := s.held + multiset(Copies(s.rows, ids, now)),
         claims := Noted(s.claims, ids, now))
    case Settle(copy, sent, stored) =>
      var settled := s.(held := s.held - multiset{copy}, sent := if sent then s.sent + multiset{copy.id} else s.sent);
      if Finalizes(copy, sent) && stored
      then settled.(rows := s.rows - {copy.id}, finals := s.finals + {Final(copy.id, copy.attempts, sent)})
      else settled
    case Drop(copy) => s.(held := s.held - multiset{copy})
    case Remove(id) => s.(rows := s.rows - {id}, removed := s.removed + {id})
  }

  const EMPTY: Outbox := Outbox(map[], multiset{}, map[], multiset{}, {}, {})

  function Run(events: seq<Event>): Outbox {
    if events == [] then EMPTY else Step(Run(events[..|events| - 1]), events[|events| - 1])
  }

  predicate Legal(events: seq<Event>) {
    events == [] ||
    (Legal(events[..|events| - 1]) && Enabled(Run(events[..|events| - 1]), events[|events| - 1]))
  }

  lemma Extend(events: seq<Event>, e: Event)
    ensures Run(events + [e]) == Step(Run(events), e)
    ensures Legal(events + [e]) <==> Legal(events) && Enabled(Run(events), e)
  {
    assert (events + [e])[..|events|] == events;
  }

  // ---------- What every run keeps ----------

  /** The k-th claim is followed by the next no sooner than its backoff allows. */
  predicate Spaced(times: seq<int>) {
    forall k :: 0 < k < |times| ==> times[k] >= times[k - 1] + Backoff(k - 1)
  }

  predicate RowOk(row: Row, times: seq<int>) {
    row.attempts == |times| && (times != [] ==> row.nextAttempt == times[|times| - 1] + Backoff(|times| - 1))
  }

  predicate CopyOk(c: Copy, claims: map<RowId, seq<int>>) {
    c.id in claims && 1 <= c.attempts <= |claims[c.id]| && c.at == claims[c.id][c.attempts - 1]
  }

  predicate FinalOk(f: Final, claims: map<RowId, seq<int>>) {
    f.id in claims && f.attempts <= |claims[f.id]| && (f.sent || f.attempts >= MAX_ATTEMPTS)
  }

  predicate Gone(s: Outbox, id: RowId) {
    id in s.removed || exists f :: f in s.finals && f.id == id
  }

  /** A row enqueued once is in the table, or was removed with its source, or was finalized; never two of these. */
  predicate Conserved(s: Outbox) {
    && (forall id :: id in s.rows ==> id in s.claims)
    && (forall f :: f in s.finals ==> f.id in s.claims) && s.removed <= s.claims.Keys
    && (forall id :: id in s.claims ==> (id in s.rows <==> !Gone(s, id)))
  }

  predicate TimesOk(claims: map<RowId, seq<int>>) { forall id :: id in claims ==> Spaced(claims[id]) }

  predicate RowsOk(rows: map<RowId, Row>, claims: map<RowId, seq<int>>) {
    forall id :: id in rows ==> id in claims && RowOk(rows[id], claims[id])
  }

  predicate HeldOk(held: multiset<Copy>, claims: map<RowId, seq<int>>) { forall c :: c in held ==> CopyOk(c, claims) }

  predicate FinalsOk(finals: set<Final>, claims: map<RowId, seq<int>>) {
    forall f :: f in finals ==> FinalOk(f, claims)
  }

  predicate Inv(s: Outbox) {
    && Conserved(s) && TimesOk(s.claims) && RowsOk(s.rows, s.claims)
    && HeldOk(s.held, s.claims) && FinalsOk(s.finals, s.claims)
  }

  predicate Extends(claims: map<RowId, seq<int>>, claims': map<RowId, seq<int>>) {
    forall id :: id in claims ==> id in claims' && claims[id] <= claims'[id]
  }

  lemma ExtendsKeeps(held: multiset<Copy>, finals: set<Final>, claims: map<RowId, seq<int>>, claims': map<RowId,
                     seq<int>>)
    requires HeldOk(held, claims) && FinalsOk(finals, claims) && Extends(claims, claims')
    ensures HeldOk(held, claims') && FinalsOk(finals, claims')
  {
    forall c | c in held ensures CopyOk(c, claims') {
      assert CopyOk(c, claims);
    }
    forall f | f in finals ensures FinalOk(f, claims') {
      assert FinalOk(f, claims);
    }
  }

  lemma ClaimConserves(s: Outbox, now: int, ids: set<RowId>)
    requires Conserved(s) && Enabled(s, Claim(now, ids))
    ensures Conserved(Step(s, Claim(now, ids)))
  {
    var s' := Step(s, Claim(now, ids));
    forall id | id in s'.claims ensures id in s'.rows <==> !Gone(s', id) {
      assert Gone(s', id) <==> Gone(s, id);
    }
  }

  lemma SettleConserves(s: Outbox, copy: Copy, sent: bool, stored: bool)
    requires Conserved(s) && copy.id in s.claims
    ensures Conserved(Step(s, Settle(copy, sent, stored)))
  {
    var s' := Step(s, Settle(copy, sent, stored));
    var fin := Final(copy.id, copy.attempts, sent);
    forall id | id in s'.claims ensures id in s'.rows <==> !Gone(s', id) {
      if Finalizes(copy, sent) && stored {
        assert fin in s'.finals;
        assert id != copy.id ==> (Gone(s', id) <==> Gone(s, id)) by {
          if id != copy.id && Gone(s, id) && id !in s.removed {
            var f :| f in s.finals && f.id == id;
            assert f in s'.finals;
          }
        }
      } else {
        assert Gone(s', id) <==> Gone(s, id);
      }
    }
  }

  lemma EnqueueConserves(s: Outbox, id: RowId, at: int)
    requires Conserved(s) && id !in s.claims
    ensures Conserved(Step(s, Enqueue(id, at)))
  {
    var s' := Step(s, Enqueue(id, at));
    forall k | k in s'.claims ensures k in s'.rows <==> !Gone(s', k) {
      assert Gone(s', k) <==> Gone(s, k);
    }
  }

  lemma RemoveConserves(s: Outbox, id: RowId)
    requires Conserved(s) && id in s.rows
    ensures Conserved(Step(s, Remove(id)))
  {
    var s' := Step(s, Remove(id));
    forall k | k in s'.claims ensures k in s'.rows <==> !Gone(s', k) {
      assert k != id ==> (Gone(s', k) <==> Gone(s, k));
    }
  }

  /** A due row keeps to its spacing when it is claimed again. */
  lemma ClaimSpaced(row: Row, times: seq<int>, now: int)
    requires RowOk(row, times) && Spaced(times) && row.nextAttempt <= now
    ensures Spaced(times + [now]) && RowOk(Row(row.attempts + 1, now + Backoff(row.attempts)), times + [now])
  {
  }

  lemma ClaimKeepsRows(rows: map<RowId, Row>, claims: map<RowId, seq<int>>, now: int, ids: set<RowId>)
    requires RowsOk(rows, claims) && TimesOk(claims)
    requires forall id :: id in ids ==> id in rows && rows[id].nextAttempt <= now
    ensures RowsOk(Bumped(rows, ids, now), Noted(claims, ids, now)) && TimesOk(Noted(claims, ids, now))
  {
    forall id | id in ids
      ensures Spaced(claims[id] + [now])
      ensures RowOk(Row(rows[id].attempts + 1, now + Backoff(rows[id].attempts)), claims[id] + [now])
    {
      ClaimSpaced(rows[id], claims[id], now);
    }
  }

  lemma CopiesOk(rows: map<RowId, Row>, claims: map<RowId, seq<int>>, now: int, ids: set<RowId>)
    requires RowsOk(rows, claims)
    ensures forall c :: c in Copies(rows, ids, now) ==> CopyOk(c, Noted(claims, ids, now))
  {
    forall c | c in Copies(rows, ids, now) ensures CopyOk(c, Noted(claims, ids, now)) {
      assert RowOk(rows[c.id], claims[c.id]);
    }
  }

  lemma ClaimKeeps(s: Outbox, now: int, ids: set<RowId>)
    requires Inv(s) && Enabled(s, Claim(now, ids))
    ensures Inv(Step(s, Claim(now, ids)))
  {
    ClaimConserves(s, now, ids);
    ClaimKeepsRows(s.rows, s.claims, now, ids);
    CopiesOk(s.rows, s.claims, now, ids);
    ExtendsKeeps(s.held, s.finals, s.claims, Noted(s.claims, ids, now));
  }

  lemma EnqueueKeeps(s: Outbox, id: RowId, at: int)
    requires Inv(s) && id !in s.claims
    ensures Inv(Step(s, Enqueue(id, at)))
  {
    EnqueueConserves(s, id, at);
    ExtendsKeeps(s.held, s.finals, s.claims, s.claims[id := []]);
  }

  lemma SettleKeeps(s: Outbox, copy: Copy, sent: bool, stored: bool)
    requires Inv(s) && copy in s.held
    ensures Inv(Step(s, Settle(copy, sent, stored)))
  {
    assert CopyOk(copy, s.claims);
    SettleConserves(s, copy, sent, stored);
    LessHeld(s.held, copy, s.claims);
  }

  lemma LessHeld(held: multiset<Copy>, copy: Copy, claims: map<RowId, seq<int>>)
    requires HeldOk(held, claims)
    ensures HeldOk(held - multiset{copy}, claims)
  {
  }

  lemma DropKeeps(s: Outbox, copy: Copy)
    requires Inv(s) && copy in s.held
    ensures Inv(Step(s, Drop(copy)))
  {
    var s' := Step(s, Drop(copy));
    LessHeld(s.held, copy, s.claims);
    assert forall k :: Gone(s', k) <==> Gone(s, k);
  }

  lemma StepKeeps(s: Outbox, e: Event)
    requires Inv(s) && Enabled(s, e)
    ensures Inv(Step(s, e))
  {
    match e
    case Enqueue(id, at) => EnqueueKeeps(s, id, at);
    case Claim(now, ids) => ClaimKeeps(s, now, ids);
    case Settle(copy, sent, stored) => SettleKeeps(s, copy, sent, stored);
    case Drop(copy) => DropKeeps(s, copy);
    case Remove(id) => RemoveConserves(s, id);
  }

  lemma {:induction false} RunsKeepInv(events: seq<Event>)
    requires Legal(events)
    ensures Inv(Run(events))
  {
    if events != [] {
      var init := events[..|events| - 1];
      RunsKeepInv(init);
      StepKeeps(Run(init), events[|events| - 1]);
    }
  }

  /** A claim comes no sooner than its row's backoff after the previous one, with one more attempt. */
  lemma NextClaimWaits(events: seq<Event>, id: RowId, k: nat)
    requires Legal(events) && id in Run(events).claims && k + 1 < |Run(events).claims[id]|
    ensures var times := Run(events).claims[id]; times[k + 1] >= times[k] + Backoff(k)
    ensures id in Run(events).rows ==> Run(events).rows[id].attempts == |Run(events).claims[id]|
  {
    RunsKeepInv(events);
    assert Spaced(Run(events).claims[id]);
  }

  lemma {:induction false} Pow2Grows(m: nat, n: nat)
    requires m <= n
    ensures Pow2(m) <= Pow2(n)
  {
    if m < n { Pow2Grows(m, n - 1); }
  }

  lemma BackoffValues()
    ensures Backoff(0) == 30 * SECOND && Backoff(1) == 60 * SECOND
    ensures Backoff(2) == 120 * SECOND && Backoff(3) == 240 * SECOND
    ensures Backoff(4) == 480 * SECOND && Backoff(5) == 960 * SECOND && Backoff(6) == 1800 * SECOND
  {
    assert Pow2(1) == 2 && Pow2(2) == 4 && Pow2(3) == 8;
    assert Pow2(4) == 16 && Pow2(5) == 32 && Pow2(6) == 64;
  }

  /** From the seventh claim on a row waits half an hour; before that the wait doubles from half a minute. */
  lemma BackoffExact(attempts: nat)
    ensures attempts >= 6 ==> Backoff(attempts) == 1_800_000
    ensures attempts == 0 ==> Backoff(attempts) == 30_000
    ensures 0 < attempts < 6 ==> Backoff(attempts) == 2 * Backoff(attempts - 1)
  {
    BackoffValues();
    if attempts >= 6 { Pow2Grows(6, attempts); }
    assert Pow2(5) == 32 && Pow2(6) == 64;
  }

  /** A failed delivery whose finalization commits gives the row up if and only if it was at least the eighth. */
  lemma GivenUpExact(s: Outbox, copy: Copy, stored: bool)
    requires Inv(s) && copy in s.held
    ensures var s' := Step(s, Settle(copy, false, stored));
      if stored && copy.attempts >= 8
      then s'.rows == s.rows - {copy.id} && s'.finals == s.finals + {Final(copy.id, copy.attempts, false)}
      else s'.rows == s.rows && s'.finals == s.finals
  {
  }

  /** A sent alert whose finalization commits is finalized at once. */
  lemma SentIsFinal(s: Outbox, copy: Copy, stored: bool)
    requires copy in s.held
    ensures var s' := Step(s, Settle(copy, true, stored));
      && s'.sent == s.sent + multiset{copy.id}
      && (if stored
          then s'.rows == s.rows - {copy.id} && s'.finals == s.finals + {Final(copy.id, copy.attempts, true)}
          else s'.rows == s.rows && s'.finals == s.finals)
  {
  }

  /** An alert is given up no sooner than 3690 s after its first attempt. */
  lemma GivenUpLate(events: seq<Event>, f: Final)
    requires Legal(events) && f in Run(events).finals && !f.sent
    ensures f.attempts >= MAX_ATTEMPTS
    ensures f.id in Run(events).claims && |Run(events).claims[f.id]| >= MAX_ATTEMPTS
    ensures var times := Run(events).claims[f.id]; times[7] >= times[0] + 3690 * SECOND
  {
    RunsKeepInv(events);
    assert FinalOk(f, Run(events).claims);
    var times := Run(events).claims[f.id];
    assert Spaced(times);
    BackoffValues();
  }

  // ---------- Double sending ----------

  lemma {:induction false} DeadlinesGrow(times: seq<int>, i: nat, j: nat)
    requires Spaced(times) && i <= j < |times|
    ensures times[i] + Backoff(i) <= times[j] + Backoff(j)
    decreases j
  {
    if i < j { DeadlinesGrow(times, i, j - 1); }
  }

  /** A copy outlives its backoff. */
  predicate Late(c: Copy, now: int)
    requires c.attempts > 0
  {
    now >= c.at + Backoff(c.attempts - 1)
  }

  /** A row is claimed while another dispatcher holds it only if that dispatcher is late. */
  lemma OverlapMeansLate(s: Outbox, now: int, ids: set<RowId>, c: Copy)
    requires Inv(s) && Enabled(s, Claim(now, ids)) && c in s.held && c.id in ids
    ensures c.attempts > 0 && Late(c, now)
  {
    var times := s.claims[c.id];
    assert CopyOk(c, s.claims) && RowOk(s.rows[c.id], times);
    DeadlinesGrow(times, c.attempts - 1, |times| - 1);
  }

  /** The latest holder of a row keeps the next claim away exactly as long as it is not late. */
  lemma DueExactlyWhenLate(s: Outbox, c: Copy, now: int)
    requires Inv(s) && c in s.held && c.id in s.rows && c.attempts == s.rows[c.id].attempts
    ensures c.attempts > 0 && (Enabled(s, Claim(now, {c.id})) <==> Late(c, now))
  {
    assert CopyOk(c, s.claims) && RowOk(s.rows[c.id], s.claims[c.id]);
  }

  const BATCH_TIMEOUT: int := 120 * SECOND

  /** Deliveries that end within the batch's two minutes overlap a claim only on a row's first two attempts. */
  lemma OverlapIsEarly(s: Outbox, now: int, ids: set<RowId>, c: Copy)
    requires Inv(s) && Enabled(s, Claim(now, ids)) && c in s.held && c.id in ids
    requires now < c.at + BATCH_TIMEOUT
    ensures 1 <= c.attempts <= 2
  {
    assert Pow2(1) == 2 && Pow2(2) == 4;
    OverlapMeansLate(s, now, ids, c);
    if c.attempts > 2 { Pow2Grows(2, c.attempts - 1); }
  }

  /**
   * No claim takes a row whose delivery has outlived its backoff, and the finalization of a sent
   * alert commits unless its row is gone already.
   */
  predicate Prompt(s: Outbox, e: Event) {
    && (e.Claim? ==> forall c :: c in s.held && c.id in e.ids ==> c.attempts > 0 && !Late(c, e.now))
    && (e.Settle? && e.sent && e.copy.id in s.rows ==> e.stored)
  }

  predicate PromptRun(events: seq<Event>) {
    events == [] ||
    (PromptRun(events[..|events| - 1]) && Prompt(Run(events[..|events| - 1]), events[|events| - 1]))
  }

  predicate OnePerRow(held: multiset<Copy>) {
    && (forall c :: c in held ==> held[c] == 1)
    && (forall c, d :: c in held && d in held && c.id == d.id ==> c == d)
  }

  /** One copy per row at a time, and none once it was sent. */
  predicate Single(s: Outbox) {
    && OnePerRow(s.held)
    && SentGone(s.sent, s.rows, s.claims)
    && (forall c :: c in s.held ==> c.id !in s.sent)
  }

  predicate SentGone(sent: multiset<RowId>, rows: map<RowId, Row>, claims: map<RowId, seq<int>>) {
    forall id :: id in sent ==> sent[id] == 1 && id !in rows && id in claims
  }

  lemma FewerHeld(held: multiset<Copy>, copy: Copy)
    requires OnePerRow(held) && copy in held
    ensures OnePerRow(held - multiset{copy})
    ensures forall c :: c in held - multiset{copy} ==> c in held && c.id != copy.id
  {
    var rest := held - multiset{copy};
    assert forall c :: c in rest ==> c in held && c != copy && rest[c] == held[c];
  }

  lemma SendGone(sent: multiset<RowId>, rows: map<RowId, Row>, claims: map<RowId, seq<int>>, id: RowId)
    requires SentGone(sent, rows, claims) && id in claims && id !in sent
    ensures SentGone(sent + multiset{id}, rows - {id}, claims)
  {
  }

  lemma MoreHeld(held: multiset<Copy>, taken: set<Copy>, ids: set<RowId>)
    requires OnePerRow(held) && (forall c :: c in held ==> c.id !in ids)
    requires forall c :: c in taken ==> c.id in ids
    requires forall c, d :: c in taken && d in taken && c.id == d.id ==> c == d
    ensures OnePerRow(held + multiset(taken))
    ensures forall c :: c in held + multiset(taken) ==> c in held || c.id in ids
  {
  }

  /** A claim is prompt exactly when nobody holds a row it takes. */
  lemma PromptClaimExact(s: Outbox, now: int, ids: set<RowId>)
    requires Inv(s) && Enabled(s, Claim(now, ids))
    ensures Prompt(s, Claim(now, ids)) <==> forall c :: c in s.held ==> c.id !in ids
  {
    forall c | c in s.held && c.id in ids ensures c.attempts > 0 && Late(c, now) {
      OverlapMeansLate(s, now, ids, c);
    }
  }

  lemma AgainDiffers(s: Outbox, c: Copy, now: int)
    requires Inv(s) && c in s.held && c.id in s.rows
    ensures Copy(c.id, now, s.rows[c.id].attempts + 1) != c
  {
    assert CopyOk(c, s.claims) && RowOk(s.rows[c.id], s.claims[c.id]);
  }

  lemma ClaimKeepsSingle(s: Outbox, now: int, ids: set<RowId>)
    requires Single(s) && forall c :: c in s.held ==> c.id !in ids
    requires Enabled(s, Claim(now, ids))
    ensures Single(Step(s, Claim(now, ids)))
  {
    MoreHeld(s.held, Copies(s.rows, ids, now), ids);
  }

  lemma ClaimDoubles(s: Outbox, now: int, ids: set<RowId>, c: Copy)
    requires Inv(s) && Enabled(s, Claim(now, ids)) && c in s.held && c.id in ids
    ensures var again := Copy(c.id, now, s.rows[c.id].attempts + 1);
      c != again && c in Step(s, Claim(now, ids)).held && again in Step(s, Claim(now, ids)).held
  {
    AgainDiffers(s, c, now);
    assert Copy(c.id, now, s.rows[c.id].attempts + 1) in Copies(s.rows, ids, now);
  }

  lemma ClaimSingle(s: Outbox, now: int, ids: set<RowId>)
    requires Inv(s) && Single(s) && Enabled(s, Claim(now, ids))
    ensures Single(Step(s, Claim(now, ids))) <==> Prompt(s, Claim(now, ids))
  {
    PromptClaimExact(s, now, ids);
    if c :| c in s.held && c.id in ids {
      ClaimDoubles(s, now, ids, c);
    } else {
      ClaimKeepsSingle(s, now, ids);
    }
  }

  lemma UnsentSingle(s: Outbox, copy: Copy, stored: bool)
    requires Single(s) && copy in s.held
    ensures Single(Step(s, Settle(copy, false, stored)))
  {
    FewerHeld(s.held, copy);
    assert SentGone(s.sent, s.rows - {copy.id}, s.claims);
  }

  /** The parts of the state once a copy was sent, its row kept or gone. */
  lemma SentSingle(s: Outbox, copy: Copy, rows: map<RowId, Row>)
    requires Single(s) && copy in s.held && copy.id in s.claims && (rows == s.rows || rows == s.rows - {copy.id})
    ensures OnePerRow(s.held - multiset{copy})
    ensures forall c :: c in s.held - multiset{copy} ==> c.id !in s.sent + multiset{copy.id}
    ensures SentGone(s.sent + multiset{copy.id}, rows, s.claims) <==> copy.id !in rows
  {
    FewerHeld(s.held, copy);
    SendGone(s.sent, s.rows, s.claims, copy.id);
    assert copy.id in s.sent + multiset{copy.id};
    if rows == s.rows && copy.id !in rows { assert s.rows - {copy.id} == s.rows; }
  }

  lemma SettleSingle(s: Outbox, copy: Copy, sent: bool, stored: bool)
    requires Single(s) && copy in s.held && copy.id in s.claims
    ensures Single(Step(s, Settle(copy, sent, stored))) <==> (sent && copy.id in s.rows ==> stored)
  {
    if sent {
      SentSingle(s, copy, if stored then s.rows - {copy.id} else s.rows);
    } else {
      UnsentSingle(s, copy, stored);
    }
  }

  lemma OtherSingle(s: Outbox, e: Event)
    requires Conserved(s) && Single(s) && Enabled(s, e) && !e.Claim? && !e.Settle?
    ensures Single(Step(s, e))
  {
    match e
    case Drop(copy) => FewerHeld(s.held, copy);
    case Enqueue(id, at) => assert id !in s.sent;
    case Remove(id) =>
  }

  /** From one copy per row, a step keeps to it if and only if it is prompt. */
  lemma StepSingle(s: Outbox, e: Event)
    requires Inv(s) && Single(s) && Enabled(s, e)
    ensures Single(Step(s, e)) <==> Prompt(s, e)
  {
    if e.Claim? {
      ClaimSingle(s, e.now, e.ids);
    } else if e.Settle? {
      assert CopyOk(e.copy, s.claims);
      SettleSingle(s, e.copy, e.sent, e.stored);
    } else {
      OtherSingle(s, e);
    }
  }

  /** The run never had two copies of a row, nor one that was sent already. */
  predicate AlwaysSingle(events: seq<Event>) {
    Single(Run(events)) && (events == [] || AlwaysSingle(events[..|events| - 1]))
  }

  /**
   * A run keeps to one copy per row, none once sent, if and only if it is prompt; so prompt runs
   * never send an alert twice.
   */
  lemma {:induction false} PromptRunsSendOnce(events: seq<Event>, id: RowId)
    requires Legal(events)
    ensures AlwaysSingle(events) <==> PromptRun(events)
    ensures PromptRun(events) ==> Run(events).sent[id] <= 1
  {
    if events != [] {
      var init := events[..|events| - 1];
      PromptRunsSendOnce(init, id);
      RunsKeepInv(init);
      if AlwaysSingle(init) { StepSingle(Run(init), events[|events| - 1]); }
    }
  }

  // ---------- Every lapse can double a send ----------

  /** Three steps in a row that send a row twice. */
  predicate Doubles(s: Outbox, e1: Event, e2: Event, e3: Event, id: RowId) {
    && Enabled(s, e1) && Enabled(Step(s, e1), e2) && Enabled(Step(Step(s, e1), e2), e3)
    && Step(Step(Step(s, e1), e2), e3).sent[id] == s.sent[id] + 2
  }

  lemma Double(events: seq<Event>, e1: Event, e2: Event, e3: Event, id: RowId) returns (all: seq<Event>)
    ensures events + [e1] <= all
    ensures Legal(events) && Doubles(Run(events), e1, e2, e3, id) ==>
      Legal(all) && Run(all).sent[id] == Run(events).sent[id] + 2
  {
    Extend(events, e1);
    Extend(events + [e1], e2);
    Extend(events + [e1] + [e2], e3);
    all := events + [e1] + [e2] + [e3];
  }

  /** Settling one of two held copies as sent keeps the other in hand. */
  lemma SettleOne(s: Outbox, c: Copy, other: Copy)
    requires c in s.held
    ensures Step(s, Settle(c, true, true)).sent == s.sent + multiset{c.id}
    ensures other in s.held && other != c ==> other in Step(s, Settle(c, true, true)).held
  {
  }

  lemma LateSteps(s: Outbox, c: Copy, now: int, ids: set<RowId>)
    requires Inv(s) && Enabled(s, Claim(now, ids)) && c in s.held && c.id in ids
    ensures var again := Copy(c.id, now, s.rows[c.id].attempts + 1);
      Doubles(s, Claim(now, ids), Settle(c, true, true), Settle(again, true, true), c.id)
  {
    var again := Copy(c.id, now, s.rows[c.id].attempts + 1);
    ClaimDoubles(s, now, ids, c);
    var s1 := Step(s, Claim(now, ids));
    SettleOne(s1, c, again);
    var s2 := Step(s1, Settle(c, true, true));
    SettleOne(s2, again, again);
  }

  /** After any run, a claim that takes a row another dispatcher still holds can lead to two sends of it. */
  lemma LateHolderSendsTwice(events: seq<Event>, c: Copy, now: int, ids: set<RowId>) returns (all: seq<Event>)
    requires Legal(events) && Enabled(Run(events), Claim(now, ids)) && c in Run(events).held && c.id in ids
    ensures Legal(all) && events + [Claim(now, ids)] <= all
    ensures Run(all).sent[c.id] == Run(events).sent[c.id] + 2
  {
    var s := Run(events);
    RunsKeepInv(events);
    LateSteps(s, c, now, ids);
    var again := Copy(c.id, now, s.rows[c.id].attempts + 1);
    all := Double(events, Claim(now, ids), Settle(c, true, true), Settle(again, true, true), c.id);
  }

  lemma UnstoredSteps(s: Outbox, c: Copy, now: int)
    requires Inv(s) && c in s.held && c.id in s.rows && s.rows[c.id].nextAttempt <= now
    ensures var again := Copy(c.id, now, s.rows[c.id].attempts + 1);
      Doubles(s, Settle(c, true, false), Claim(now, {c.id}), Settle(again, true, true), c.id)
  {
    var again := Copy(c.id, now, s.rows[c.id].attempts + 1);
    var s1 := Step(s, Settle(c, true, false));
    assert again in Copies(s1.rows, {c.id}, now);
    SettleOne(Step(s1, Claim(now, {c.id})), again, again);
  }

  /** A sent alert whose finalization does not commit keeps its row, and can be sent again once due. */
  lemma UnstoredSendsTwice(events: seq<Event>, c: Copy, now: int) returns (all: seq<Event>)
    requires Legal(events) && c in Run(events).held && c.id in Run(events).rows
    requires Run(events).rows[c.id].nextAttempt <= now
    ensures Legal(all) && events + [Settle(c, true, false)] <= all
    ensures Run(all).sent[c.id] == Run(events).sent[c.id] + 2
  {
    var s := Run(events);
    RunsKeepInv(events);
    UnstoredSteps(s, c, now);
    var again := Copy(c.id, now, s.rows[c.id].attempts + 1);
    all := Double(events, Settle(c, true, false), Claim(now, {c.id}), Settle(again, true, true), c.id);
  }

  /** So every lapse from promptness, after any run, can lead to an alert sent twice. */
  lemma LapseSendsTwice(events: seq<Event>, e: Event) returns (all: seq<Event>, id: RowId)
    requires Legal(events) && Enabled(Run(events), e) && !Prompt(Run(events), e)
    ensures Legal(all) && events + [e] <= all && Run(all).sent[id] >= 2
  {
    var s := Run(events);
    RunsKeepInv(events);
    if e.Claim? {
      PromptClaimExact(s, e.now, e.ids);
      var c :| c in s.held && c.id in e.ids;
      id := c.id;
      all := LateHolderSendsTwice(events, c, e.now, e.ids);
    } else {
      id := e.copy.id;
      all := UnstoredSendsTwice(events, e.copy, s.rows[id].nextAttempt);
    }
  }

  lemma FirstClaim(id: RowId, t: int) returns (events: seq<Event>)
    ensures Legal(events) && Copy(id, t, 1) in Run(events).held && Run(events).sent[id] == 0
    ensures id in Run(events).rows && Run(events).rows[id].nextAttempt == t + 30 * SECOND
  {
    Extend([], Enqueue(id, t));
    var one := [] + [Enqueue(id, t)];
    Extend(one, Claim(t, {id}));
    events := one + [Claim(t, {id})];
    assert Copy(id, t, 1) in Copies(Run(one).rows, {id}, t);
    BackoffValues();
  }

  /** From the empty outbox any alert can be sent twice: all it takes is a first delivery of 30 seconds. */
  lemma SlowDeliverySendsTwice(id: RowId, t: int) returns (all: seq<Event>)
    ensures Legal(all) && Run(all).sent[id] == 2
  {
    var events := FirstClaim(id, t);
    all := LateHolderSendsTwice(events, Copy(id, t, 1), t + 30 * SECOND, {id});
  }

  // ---------- The statements ----------

  predicate Due(rows: map<RowId, Row>, locked: set<RowId>, now: int, id: RowId) {
    id in rows && id !in locked && rows[id].nextAttempt <= now
  }

  /** No due row is passed over for one that became due later. */
  predicate EarliestFirst(rows: map<RowId, Row>, ids: set<RowId>, locked: set<RowId>, now: int) {
    forall a, b | a in ids && a in rows && b in rows && Due(rows, locked, now, b) && b !in ids ::
      rows[a].nextAttempt <= rows[b].nextAttempt
  }

  class OutboxStore {
    var rows: map<RowId, Row>
    var history: nat                        // alert_history rows written

    /** The due row with the earliest next attempt, of those not picked yet. */
    method Earliest(due: set<RowId>) returns (id: RowId)
      requires due != {} && due <= rows.Keys
      ensures id in due && forall k :: k in due ==> rows[id].nextAttempt <= rows[k].nextAttempt
    {
      id :| id in due;
      var rest := due - {id};
      while rest != {}
        invariant rest <= due && id in due
        invariant forall k :: k in due && k !in rest ==> rows[id].nextAttempt <= rows[k].nextAttempt
        decreases |rest|
      {
        var k :| k in rest;
        if rows[k].nextAttempt < rows[id].nextAttempt { id := k; }
        rest := rest - {k};
      }
    }

    /** SELECT … ORDER BY next_attempt_at LIMIT n FOR UPDATE SKIP LOCKED. */
    method SelectDue(now: int, limit: nat, locked: set<RowId>) returns (ids: set<RowId>)
      ensures forall id :: id in ids ==> id in rows && id !in locked && rows[id].nextAttempt <= now
      ensures |ids| <= limit
      ensures |ids| < limit ==> forall id :: id in rows && id !in locked && rows[id].nextAttempt <= now ==> id in ids
      ensures EarliestFirst(rows, ids, locked, now)
    {
      var due := set id | id in rows && Due(rows, locked, now, id);
      ids := {};
      while |ids| < limit && due != {}
        invariant |ids| <= limit && ids !! due
        invariant forall id :: id in ids || id in due <==> Due(rows, locked, now, id)
        invariant forall a, b :: a in ids && b in due ==> rows[a].nextAttempt <= rows[b].nextAttempt
        decreases |due|
      {
        var id := Earliest(due);
        ids, due := ids + {id}, due - {id};
      }
    }

    /** ClaimOutboxAlerts: due rows, earliest first, skipping rows another transaction has locked. */
    method ClaimOutboxAlerts(now: int, limit: nat, locked: set<RowId>) returns (copies: set<Copy>)
      modifies this`rows
      ensures exists ids: set<RowId> ::
        && (forall id :: id in ids ==> Due(old(rows), locked, now, id)) && |ids| <= limit
        && (|ids| < limit ==> forall id :: Due(old(rows), locked, now, id) ==> id in ids)
        && EarliestFirst(old(rows), ids, locked, now)
        && rows == Bumped(old(rows), ids, now) && copies == Copies(old(rows), ids, now)
    {
      var ids := SelectDue(now, limit, locked);
      copies := set id | id in ids && id in rows :: Copy(id, now, rows[id].attempts + 1);
      rows := map k | k in rows ::
        if k in ids then Row(rows[k].attempts + 1, now + Backoff(rows[k].attempts)) else rows[k];
    }

    /** FinalizeOutboxAlert, all or nothing. */
    method FinalizeOutboxAlert(id: RowId, hasSource: bool, commits: bool)
      modifies this
      ensures rows == if commits then old(rows) - {id} else old(rows)
      ensures history == old(history) + if commits && hasSource then 1 else 0
    {
      if !commits { return; }
      if hasSource { history := history + 1; }
      rows := rows - {id};
    }

    /** deliver: finalize on success or once the attempts are used up, otherwise leave the row to its backoff. */
    method Deliver(copy: Copy, sent: bool, hasSource: bool, commits: bool)
      modifies this
      ensures rows == if (sent || copy.attempts >= 8) && commits then old(rows) - {copy.id} else old(rows)
      ensures history == old(history) + if (sent || copy.attempts >= 8) && commits && hasSource then 1 else 0
    {
      if sent {
        FinalizeOutboxAlert(copy.id, hasSource, commits);
      } else if copy.attempts >= MAX_ATTEMPTS {
        FinalizeOutboxAlert(copy.id, hasSource, commits);
      }
    }
  }
}
