/** What a rule does over a whole run of matches. */
module AlertRuns {
  import opened Basics
  import opened Records
  import opened Text
  import opened AlertEngine

  /** An alert: when it fired and how many matches it counted. */
  datatype Alert = Alert(at: int, count: int)

  /** The rule's state after matches at the times `ts`, from the state a reload leaves. */
  function StateAfter(rule: AlertRule, ts: seq<int>): RuleState {
    if ts == [] then FRESH else AfterTally(rule, StateAfter(rule, ts[..|ts| - 1]), ts[|ts| - 1])
  }

  /** What one more match raises. */
  function Raised(rule: AlertRule, st: RuleState, now: int): seq<Alert> {
    if Fires(rule, st, now) then [Alert(now, |Kept(rule, st, now)|)] else []
  }

  function AlertsOf(rule: AlertRule, ts: seq<int>): seq<Alert> {
    if ts == [] then []
    else
      var front, now := ts[..|ts| - 1], ts[|ts| - 1];
      AlertsOf(rule, front) + Raised(rule, StateAfter(rule, front), now)
  }

  // ---------- where 64-bit arithmetic is exact ----------

  /** Every timestamp is a 64-bit integer. */
  ghost predicate Machine(ts: seq<int>) {
    forall t | t in ts :: InI64(t)
  }

  lemma {:induction false} WrapExact(x: int)
    requires InI64(x)
    ensures Wrap(x) == x
  {
  }

  /** The last alert time is 0 or the time of some match, and a pending hit is one of the matches. */
  lemma {:induction false} StateFrom(rule: AlertRule, ts: seq<int>)
    ensures StateAfter(rule, ts).last == 0 || StateAfter(rule, ts).last in ts
    ensures forall h | h in StateAfter(rule, ts).hits :: h in ts
  {
    if ts != [] {
      var front, now := ts[..|ts| - 1], ts[|ts| - 1];
      assert ts == front + [now];
      StateFrom(rule, front);
      ExpireSuffix(StateAfter(rule, front).hits, Wrap(now - rule.windowSecs * 1000));
    }
  }

  lemma {:induction false} ExpireSuffix(hits: seq<int>, cutoff: int)
    ensures |Expire(hits, cutoff)| <= |hits|
    ensures Expire(hits, cutoff) == hits[|hits| - |Expire(hits, cutoff)|..]
  {
    if hits != [] && hits[0] < cutoff {
      ExpireSuffix(hits[1..], cutoff);
    }
  }

  lemma {:induction false} LastMachine(rule: AlertRule, ts: seq<int>)
    requires Machine(ts)
    ensures InI64(StateAfter(rule, ts).last)
  {
    StateFrom(rule, ts);
  }

  // ---------- cooldown ----------

  /** One firing, any 64-bit clock values: it respects the cooldown exactly when the true gap since
      the last alert did not fall below the 64-bit range. */
  lemma {:induction false} SpacedIff(rule: AlertRule, st: RuleState, now: int)
    requires ValidRule(rule) && InI64(now) && InI64(st.last) && Fires(rule, st, now)
    ensures now - st.last >= rule.cooldownSecs * 1000 <==> now - st.last >= -TWO63
  {
    var gap := now - st.last;
    assert gap >= TWO63 ==> Wrap(gap) == gap - 2 * TWO63;
    if InI64(gap) {
      WrapExact(gap);
    }
  }

  /** On 64-bit operands, `Wrap` is arithmetic modulo 2^64. */
  lemma {:induction false} WrapIsModular(x: int)
    requires -0x1_0000_0000_0000_0000 <= x < 0x1_0000_0000_0000_0000
    ensures Wrap(x) == (x + 0x8000_0000_0000_0000) % 0x1_0000_0000_0000_0000 - 0x8000_0000_0000_0000
  {
    if x >= TWO63 {
      assert x + TWO63 == (x - TWO63) + 2 * TWO63;
    } else if x < -TWO63 {
      assert x + TWO63 == (x + 3 * TWO63) - 2 * TWO63;
    }
  }

  lemma {:induction false} TwoMatches(rule: AlertRule, a: int, b: int)
    ensures AlertsOf(rule, [a, b]) == Raised(rule, FRESH, a) + Raised(rule, AfterTally(rule, FRESH, a), b)
  {
    assert [a, b][..1] == [a] && [a][..0] == [];
    assert AlertsOf(rule, [a]) == AlertsOf(rule, []) + Raised(rule, FRESH, a);
    assert StateAfter(rule, [a]) == AfterTally(rule, FRESH, a);
  }

  /** Two alerts can be out of order by half the clock: the gap wraps to a huge positive number. */
  lemma {:induction false} SpacingWraps() returns (rule: AlertRule, ts: seq<int>)
    ensures ValidRule(rule) && |ts| == 2 && InI64(ts[0]) && InI64(ts[1])
    ensures AlertsOf(rule, ts) == [Alert(ts[0], 1), Alert(ts[1], 1)] && ts[1] < ts[0]
  {
    rule := AlertRule(1, "r", true, 0, None, None, None, 1, 300, 900);
    var a, b := 0x4000_0000_0000_0000, -0x4000_0000_0000_0001;
    ts := [a, b];
    TwoMatches(rule, a, b);
    assert Kept(rule, FRESH, a) == [a];
    assert Kept(rule, RuleState([], a), b) == [b];
    assert Wrap(b - a) == 0x7FFF_FFFF_FFFF_FFFF;
  }

  lemma {:induction false} LastAlert(rule: AlertRule, ts: seq<int>)
    ensures var alerts := AlertsOf(rule, ts);
      StateAfter(rule, ts).last == if alerts == [] then 0 else alerts[|alerts| - 1].at
  {
    if ts != [] {
      LastAlert(rule, ts[..|ts| - 1]);
    }
  }

  ghost predicate Spaced(rule: AlertRule, alerts: seq<Alert>) {
    forall i, j | 0 <= i < j < |alerts| :: alerts[j].at - alerts[i].at >= rule.cooldownSecs * 1000
  }

  /** No alert lies more than half the 64-bit range below the one before it. */
  ghost predicate NoFarDrop(alerts: seq<Alert>) {
    forall k | 0 < k < |alerts| :: alerts[k].at - alerts[k - 1].at >= -TWO63
  }

  lemma {:induction false} SpacedSnoc(rule: AlertRule, alerts: seq<Alert>, a: Alert)
    requires ValidRule(rule) && Spaced(rule, alerts)
    requires alerts != [] ==> a.at - alerts[|alerts| - 1].at >= rule.cooldownSecs * 1000
    ensures Spaced(rule, alerts + [a])
  {
    var all, n := alerts + [a], |alerts|;
    forall i, j | 0 <= i < j < |all| ensures all[j].at - all[i].at >= rule.cooldownSecs * 1000 {
      if j == n && i < n - 1 {
        assert alerts[n - 1].at - alerts[i].at >= rule.cooldownSecs * 1000;
      }
    }
  }

  lemma {:induction false} DropPrefix(alerts: seq<Alert>, a: Alert)
    requires NoFarDrop(alerts + [a])
    ensures NoFarDrop(alerts) && (alerts != [] ==> a.at - alerts[|alerts| - 1].at >= -TWO63)
  {
    var all := alerts + [a];
    forall k | 0 < k < |alerts| ensures alerts[k].at - alerts[k - 1].at >= -TWO63 {
      assert all[k].at - all[k - 1].at >= -TWO63;
    }
    if alerts != [] { assert all[|alerts|].at - all[|alerts| - 1].at >= -TWO63; }
  }

  /** One direction: alerts that never drop far are spaced. */
  lemma {:induction false} NoDropSpaced(rule: AlertRule, ts: seq<int>)
    requires ValidRule(rule) && Machine(ts) && NoFarDrop(AlertsOf(rule, ts))
    ensures Spaced(rule, AlertsOf(rule, ts))
  {
    if ts != [] {
      var front, now := ts[..|ts| - 1], ts[|ts| - 1];
      assert now in ts && forall t | t in front :: t in ts;
      var st, alerts := StateAfter(rule, front), AlertsOf(rule, front);
      LastMachine(rule, front);
      LastAlert(rule, front);
      if Fires(rule, st, now) {
        DropPrefix(alerts, Alert(now, |Kept(rule, st, now)|));
        NoDropSpaced(rule, front);
        SpacedIff(rule, st, now);
        SpacedSnoc(rule, alerts, Alert(now, |Kept(rule, st, now)|));
      } else {
        assert AlertsOf(rule, ts) == alerts + [] == alerts;
        NoDropSpaced(rule, front);
      }
    }
  }

  /** Over a whole run of 64-bit timestamps in any order: the alerts of a rule are pairwise at least the
      cooldown apart exactly when none lies more than half the 64-bit range below its predecessor. */
  lemma {:induction false} SpacingIff(rule: AlertRule, ts: seq<int>)
    requires ValidRule(rule) && Machine(ts)
    ensures Spaced(rule, AlertsOf(rule, ts)) <==> NoFarDrop(AlertsOf(rule, ts))
  {
    if NoFarDrop(AlertsOf(rule, ts)) { NoDropSpaced(rule, ts); }
  }

  /** No match lies more than half the 64-bit range below an earlier one. */
  ghost predicate NoFarFall(ts: seq<int>) {
    forall i, j | 0 <= i < j < |ts| :: ts[j] - ts[i] >= -TWO63
  }

  /** The positions of the matches that fired. */
  ghost function AlertPicks(rule: AlertRule, ts: seq<int>): (picks: seq<int>)
    ensures forall k | 0 <= k < |picks| :: 0 <= picks[k] < |ts|
  {
    if ts == [] then []
    else
      var front := ts[..|ts| - 1];
      AlertPicks(rule, front) + if Fires(rule, StateAfter(rule, front), ts[|ts| - 1]) then [|front|] else []
  }

  lemma {:induction false} PicksAreAlerts(rule: AlertRule, ts: seq<int>)
    ensures var picks, alerts := AlertPicks(rule, ts), AlertsOf(rule, ts);
      && |picks| == |alerts|
      && (forall k | 0 <= k < |picks| :: 0 <= picks[k] < |ts| && ts[picks[k]] == alerts[k].at)
      && (forall k, l | 0 <= k < l < |picks| :: picks[k] < picks[l])
  {
    if ts != [] {
      PicksAreAlerts(rule, ts[..|ts| - 1]);
    }
  }

  /** For 64-bit timestamps in any order that never fall by more than half the range: any two alerts of a
      rule are at least the cooldown apart. */
  lemma {:induction false} Spacing(rule: AlertRule, ts: seq<int>)
    requires ValidRule(rule) && Machine(ts) && NoFarFall(ts)
    ensures Spaced(rule, AlertsOf(rule, ts))
  {
    PicksAreAlerts(rule, ts);
    var picks, alerts := AlertPicks(rule, ts), AlertsOf(rule, ts);
    forall k | 0 < k < |alerts| ensures alerts[k].at - alerts[k - 1].at >= -TWO63 {
      assert picks[k - 1] < picks[k] && ts[picks[k]] == alerts[k].at && ts[picks[k - 1]] == alerts[k - 1].at;
    }
    SpacingIff(rule, ts);
  }

  // ---------- conservation: every match has one fate ----------

  /** What became of a match: it left the window unused, or alert number `n` counted it. */
  datatype Fate = Expired(t: int) | Counted(t: int, n: nat)

  function Times(fates: seq<Fate>): seq<int> {
    seq(|fates|, i requires 0 <= i < |fates| => fates[i].t)
  }

  function Stamp(hits: seq<int>, n: nat): seq<Fate> {
    seq(|hits|, i requires 0 <= i < |hits| => Counted(hits[i], n))
  }

  function Dropped(hits: seq<int>): seq<Fate> {
    seq(|hits|, i requires 0 <= i < |hits| => Expired(hits[i]))
  }

  /** The fates one match decides: first what expires, then, if the rule fires as alert `n`, the rest. */
  ghost function StepFates(rule: AlertRule, st: RuleState, now: int, n: nat): seq<Fate> {
    var kept := Kept(rule, st, now);
    Dropped(st.hits[..Gone(rule, st, now)]) + if Fires(rule, st, now) then Stamp(kept, n) else []
  }

  ghost function Gone(rule: AlertRule, st: RuleState, now: int): (n: nat)
    ensures n <= |st.hits|
  {
    ExpireSuffix(st.hits, Wrap(now - rule.windowSecs * 1000));
    |st.hits| + 1 - |Kept(rule, st, now)|
  }

  /** The fates decided over a run, in the order they are decided. */
  ghost function Fates(rule: AlertRule, ts: seq<int>): seq<Fate> {
    if ts == [] then []
    else
      var front := ts[..|ts| - 1];
      Fates(rule, front) + StepFates(rule, StateAfter(rule, front), ts[|ts| - 1], |AlertsOf(rule, front)|)
  }

  lemma {:induction false} StepTimes(rule: AlertRule, st: RuleState, now: int, n: nat)
    ensures Times(StepFates(rule, st, now, n)) + AfterTally(rule, st, now).hits == st.hits + [now]
  {
    ExpireSuffix(st.hits, Wrap(now - rule.windowSecs * 1000));
    var gone, kept := Gone(rule, st, now), Kept(rule, st, now);
    assert Times(Dropped(st.hits[..gone])) == st.hits[..gone];
    assert Times(Stamp(kept, n)) == kept;
    TimesConcat(Dropped(st.hits[..gone]), if Fires(rule, st, now) then Stamp(kept, n) else []);
    assert st.hits[..gone] + kept == st.hits + [now];
  }

  /**
   * For timestamps in any order the matches, in order, are exactly those whose fate is decided
   * followed by those still pending: none is counted by two alerts, none disappears.
   */
  lemma {:induction false} EveryMatchOnce(rule: AlertRule, ts: seq<int>)
    ensures Times(Fates(rule, ts)) + StateAfter(rule, ts).hits == ts
  {
    if ts != [] {
      var front, now, n := ts[..|ts| - 1], ts[|ts| - 1], |AlertsOf(rule, ts[..|ts| - 1])|;
      var st := StateAfter(rule, front);
      EveryMatchOnce(rule, front);
      StepTimes(rule, st, now, n);
      TimesConcat(Fates(rule, front), StepFates(rule, st, now, n));
      Carry(Times(Fates(rule, front)), Times(StepFates(rule, st, now, n)), AfterTally(rule, st, now).hits, st.hits, now);
    }
  }

  lemma {:induction false} Carry(settled: seq<int>, more: seq<int>, after: seq<int>, hits: seq<int>, now: int)
    requires more + after == hits + [now]
    ensures (settled + more) + after == (settled + hits) + [now]
  {
    assert (settled + more) + after == settled + (more + after);
  }

  lemma {:induction false} TimesConcat(a: seq<Fate>, b: seq<Fate>)
    ensures Times(a + b) == Times(a) + Times(b)
  {
  }

  function CountedBy(fates: seq<Fate>, n: nat): nat {
    if fates == [] then 0
    else CountedBy(fates[..|fates| - 1], n) + if fates[|fates| - 1].Counted? && fates[|fates| - 1].n == n then 1 else 0
  }

  lemma {:induction false} CountedConcat(a: seq<Fate>, b: seq<Fate>, n: nat)
    ensures CountedBy(a + b, n) == CountedBy(a, n) + CountedBy(b, n)
  {
    if b == [] {
      assert a + b == a;
    } else {
      assert (a + b)[..|a + b| - 1] == a + b[..|b| - 1];
      CountedConcat(a, b[..|b| - 1], n);
    }
  }

  lemma {:induction false} CountedUniform(fates: seq<Fate>, m: nat, n: nat)
    requires forall f | f in fates :: f == Expired(f.t) || f == Counted(f.t, m)
    ensures (forall f | f in fates :: f.Expired?) ==> CountedBy(fates, n) == 0
    ensures (forall f | f in fates :: f.Counted?) ==> CountedBy(fates, n) == if m == n then |fates| else 0
  {
    if fates != [] {
      assert fates[|fates| - 1] in fates;
      CountedUniform(fates[..|fates| - 1], m, n);
    }
  }

  lemma {:induction false} StepCounts(rule: AlertRule, st: RuleState, now: int, m: nat, n: nat)
    ensures CountedBy(StepFates(rule, st, now, m), n)
         == if Fires(rule, st, now) && m == n then |Kept(rule, st, now)| else 0
  {
    var gone, kept := Dropped(st.hits[..Gone(rule, st, now)]), Kept(rule, st, now);
    var stamped := if Fires(rule, st, now) then Stamp(kept, m) else [];
    CountedUniform(gone, m, n);
    CountedUniform(stamped, m, n);
    CountedConcat(gone, stamped, n);
  }

  /** The count an alert reports is the number of matches whose fate was that alert. */
  lemma {:induction false} CountsAgree(rule: AlertRule, ts: seq<int>, n: nat)
    ensures var alerts := AlertsOf(rule, ts);
      CountedBy(Fates(rule, ts), n) == if n < |alerts| then alerts[n].count else 0
  {
    if ts != [] {
      var front, now := ts[..|ts| - 1], ts[|ts| - 1];
      var m := |AlertsOf(rule, front)|;
      CountsAgree(rule, front, n);
      StepCounts(rule, StateAfter(rule, front), now, m, n);
      CountedConcat(Fates(rule, front), StepFates(rule, StateAfter(rule, front), now, m), n);
    }
  }

  // ---------- the window as a filter of the history ----------

  ghost predicate Nondecreasing(ts: seq<int>) {
    forall i, j | 0 <= i < j < |ts| :: ts[i] <= ts[j]
  }

  ghost function Since(cutoff: int): int -> bool { (t: int) => t >= cutoff }

  /** The reference: all matches since the last alert, none forgotten, and the last alert's time. */
  datatype Ledger = Ledger(matches: seq<int>, last: int)

  ghost predicate Due(rule: AlertRule, book: Ledger, now: int) {
    && |Filter(book.matches + [now], Since(now - rule.windowSecs * 1000))| >= rule.threshold
    && now - book.last >= rule.cooldownSecs * 1000
  }

  ghost function Entered(rule: AlertRule, book: Ledger, now: int): Ledger {
    if Due(rule, book, now) then Ledger([], now) else Ledger(book.matches + [now], book.last)
  }

  ghost function DueAlert(rule: AlertRule, book: Ledger, now: int): seq<Alert> {
    if Due(rule, book, now)
    then [Alert(now, |Filter(book.matches + [now], Since(now - rule.windowSecs * 1000))|)]
    else []
  }

  ghost function LedgerAfter(rule: AlertRule, ts: seq<int>): Ledger {
    if ts == [] then Ledger([], 0) else Entered(rule, LedgerAfter(rule, ts[..|ts| - 1]), ts[|ts| - 1])
  }

  ghost function LedgerAlerts(rule: AlertRule, ts: seq<int>): seq<Alert> {
    if ts == [] then []
    else
      var front, now := ts[..|ts| - 1], ts[|ts| - 1];
      LedgerAlerts(rule, front) + DueAlert(rule, LedgerAfter(rule, front), now)
  }

  lemma {:induction false} FilterSuffix(ts: seq<int>, cutoff: int)
    requires Nondecreasing(ts)
    ensures Expire(ts, cutoff) == Filter(ts, Since(cutoff))
  {
    if ts != [] {
      if ts[0] < cutoff {
        FilterConcat([ts[0]], ts[1..], Since(cutoff));
        assert ts == [ts[0]] + ts[1..] && Filter([ts[0]], Since(cutoff)) == [];
        FilterSuffix(ts[1..], cutoff);
      } else {
        forall t | t in ts ensures t >= cutoff {
          var i :| 0 <= i < |ts| && ts[i] == t;
          assert ts[0] <= ts[i];
        }
        FilterAll(ts, Since(cutoff));
      }
    }
  }

  lemma {:induction false} FilterTwice(ts: seq<int>, a: int, b: int)
    requires a <= b
    ensures Filter(Filter(ts, Since(a)), Since(b)) == Filter(ts, Since(b))
  {
    if ts != [] {
      var front, t := ts[..|ts| - 1], ts[|ts| - 1];
      FilterTwice(front, a, b);
      if t >= a {
        FilterConcat(Filter(front, Since(a)), [t], Since(b));
        assert Filter([t], Since(b)) == if t >= b then [t] else [];
      }
    }
  }

  lemma {:induction false} FilterNondecreasing(ts: seq<int>, cutoff: int)
    requires Nondecreasing(ts)
    ensures Nondecreasing(Filter(ts, Since(cutoff)))
  {
    FilterSuffix(ts, cutoff);
    ExpireSuffix(ts, cutoff);
  }

  /** The ledger's matches are the tail of the run since the last alert. */
  lemma {:induction false} LedgerTail(rule: AlertRule, ts: seq<int>)
    ensures IsTail(ts, LedgerAfter(rule, ts).matches)
  {
    if ts != [] {
      var front, now := ts[..|ts| - 1], ts[|ts| - 1];
      LedgerTail(rule, front);
      TailGrows(front, now, LedgerAfter(rule, front).matches);
      assert ts == front + [now];
    }
  }

  ghost predicate IsTail(ts: seq<int>, m: seq<int>) {
    |m| <= |ts| && m == ts[|ts| - |m|..]
  }

  lemma {:induction false} TailGrows(ts: seq<int>, now: int, m: seq<int>)
    requires IsTail(ts, m)
    ensures IsTail(ts + [now], m + [now]) && IsTail(ts + [now], [])
  {
  }

  /** Expiring a filtered window and adding the new match is filtering afresh. */
  lemma {:induction false} SlideWindow(m: seq<int>, now: int, before: int, cutoff: int)
    requires Nondecreasing(m) && before <= cutoff <= now
    ensures Expire(Filter(m, Since(before)), cutoff) + [now] == Filter(m + [now], Since(cutoff))
  {
    FilterNondecreasing(m, before);
    FilterSuffix(Filter(m, Since(before)), cutoff);
    FilterTwice(m, before, cutoff);
    FilterConcat(m, [now], Since(cutoff));
    FilterAll([now], Since(cutoff));
  }

  lemma {:induction false} LedgerOrdered(rule: AlertRule, ts: seq<int>)
    requires Nondecreasing(ts)
    ensures Nondecreasing(LedgerAfter(rule, ts).matches)
  {
    LedgerTail(rule, ts);
  }

  ghost function Latest(ts: seq<int>): int {
    if ts == [] then 0 else ts[|ts| - 1]
  }

  /** The ledger's matches inside the window that ends at the last match. */
  ghost function Window(rule: AlertRule, ts: seq<int>): seq<int> {
    Filter(LedgerAfter(rule, ts).matches, Since(Latest(ts) - rule.windowSecs * 1000))
  }

  ghost predicate InOrder(ts: seq<int>) {
    Machine(ts) && Nondecreasing(ts)
  }

  lemma {:induction false} OrderedPrefix(ts: seq<int>)
    requires InOrder(ts) && ts != []
    ensures InOrder(ts[..|ts| - 1])
  {
    forall t | t in ts[..|ts| - 1] ensures InI64(t) {
      assert t in ts;
    }
  }

  /** What a time could be compared with: 0, or an earlier match that fired; never later, never negative. */
  lemma {:induction false} LastInOrder(rule: AlertRule, ts: seq<int>)
    requires ValidRule(rule) && InOrder(ts)
    ensures var last := StateAfter(rule, ts).last; 0 <= last < TWO63 && (last == 0 || (ts != [] && last <= ts[|ts| - 1]))
  {
    if ts != [] {
      var front, now := ts[..|ts| - 1], ts[|ts| - 1];
      OrderedPrefix(ts);
      LastInOrder(rule, front);
      assert now in ts && (front != [] ==> front[|front| - 1] <= now);
    }
  }

  /** So in order no gap to the last alert leaves the 64-bit range. */
  lemma {:induction false} GapExact(rule: AlertRule, ts: seq<int>)
    requires ValidRule(rule) && InOrder(ts) && ts != []
    ensures var last, now := StateAfter(rule, ts[..|ts| - 1]).last, ts[|ts| - 1];
      && 0 <= last < TWO63 && (last == 0 || last <= now) && InI64(now) && Wrap(now - last) == now - last
  {
    var front, now := ts[..|ts| - 1], ts[|ts| - 1];
    OrderedPrefix(ts);
    LastInOrder(rule, front);
    assert now in ts && (front != [] ==> front[|front| - 1] <= now);
  }

  // ---------- the window wraps only at the very bottom of the range ----------

  /** Below this time the start of the window lies under the 64-bit range. */
  function Bottom(rule: AlertRule): int {
    -TWO63 + rule.windowSecs * 1000
  }

  /** From here up, what the deque has dropped too early at the bottom no longer matters. */
  function Floor(rule: AlertRule, latest: int): int {
    Max(latest - rule.windowSecs * 1000, Bottom(rule))
  }

  /** Two lists of match times are the same as far as any window starting at `from` or later can tell. */
  ghost predicate Agree(hits: seq<int>, matches: seq<int>, from: int) {
    forall c | c >= from :: Filter(hits, Since(c)) == Filter(matches, Since(c))
  }

  lemma {:induction false} ExpireAll(hits: seq<int>, cutoff: int)
    requires forall h | h in hits :: h < cutoff
    ensures Expire(hits, cutoff) == []
  {
    if hits != [] {
      assert hits[0] in hits && forall h | h in hits[1..] :: h in hits;
      ExpireAll(hits[1..], cutoff);
    }
  }

  lemma {:induction false} NoneSince(ts: seq<int>, cutoff: int)
    requires forall t | t in ts :: t < cutoff
    ensures Filter(ts, Since(cutoff)) == []
  {
    if ts != [] {
      var front := ts[..|ts| - 1];
      assert ts[|ts| - 1] in ts;
      forall t | t in front ensures t < cutoff { assert t in ts; }
      NoneSince(front, cutoff);
    }
  }

  /** What one match keeps: the window, or only itself where the window wraps. */
  lemma {:induction false} KeptIs(rule: AlertRule, st: RuleState, now: int)
    requires ValidRule(rule) && InI64(now) && Nondecreasing(st.hits) && forall h | h in st.hits :: h <= now
    ensures Kept(rule, st, now)
         == if now >= Bottom(rule) then Filter(st.hits, Since(now - rule.windowSecs * 1000)) + [now] else [now]
  {
    if now >= Bottom(rule) {
      FilterSuffix(st.hits, now - rule.windowSecs * 1000);
    } else {
      ExpireAll(st.hits, Wrap(now - rule.windowSecs * 1000));
      assert [] + [now] == [now];
    }
  }

  lemma {:induction false} StillAgree(rule: AlertRule, st: RuleState, matches: seq<int>, before: int, now: int)
    requires ValidRule(rule) && InI64(now) && Nondecreasing(st.hits) && before <= now
    requires (forall h | h in st.hits :: h <= now) && (forall m | m in matches :: m <= now)
    requires Agree(st.hits, matches, Floor(rule, before))
    ensures Agree(Kept(rule, st, now), matches + [now], Floor(rule, now))
  {
    KeptIs(rule, st, now);
    forall c | c >= Floor(rule, now)
      ensures Filter(Kept(rule, st, now), Since(c)) == Filter(matches + [now], Since(c))
    {
      if now >= Bottom(rule) {
        AgreeAbove(rule, st.hits, matches, before, now, c);
      } else {
        assert c > now;
        NoneSince([now], c);
        NoneSince(matches + [now], c);
      }
    }
  }

  lemma {:induction false} AgreeAbove(rule: AlertRule, hits: seq<int>, matches: seq<int>, before: int, now: int, c: int)
    requires Agree(hits, matches, Floor(rule, before)) && before <= now
    requires c >= now - rule.windowSecs * 1000 && c >= Bottom(rule)
    ensures Filter(Filter(hits, Since(now - rule.windowSecs * 1000)) + [now], Since(c)) == Filter(matches + [now], Since(c))
  {
    var cutoff := now - rule.windowSecs * 1000;
    FilterConcat(Filter(hits, Since(cutoff)), [now], Since(c));
    FilterConcat(matches, [now], Since(c));
    FilterTwice(hits, cutoff, c);
  }

  /** One match against a deque that agrees with the ledger: the rule fires exactly when due. */
  lemma {:induction false} WindowStep(rule: AlertRule, st: RuleState, book: Ledger, before: int, now: int)
    requires ValidRule(rule) && InI64(now) && Nondecreasing(st.hits) && before <= now
    requires (forall h | h in st.hits :: h <= now) && (forall m | m in book.matches :: m <= now)
    requires Agree(st.hits, book.matches, Floor(rule, before))
    requires st.last == book.last && 0 <= st.last && (st.last == 0 || st.last <= now) && Wrap(now - st.last) == now - st.last
    ensures Raised(rule, st, now) == DueAlert(rule, book, now)
    ensures AfterTally(rule, st, now).last == Entered(rule, book, now).last
    ensures Agree(AfterTally(rule, st, now).hits, Entered(rule, book, now).matches, Floor(rule, now))
  {
    StillAgree(rule, st, book.matches, before, now);
    if now - st.last >= rule.cooldownSecs * 1000 {
      KeptCounts(rule, st, book.matches, before, now);
    }
  }

  /** Where a rule can fire at all, the deque is the window of the ledger. */
  lemma {:induction false} KeptCounts(rule: AlertRule, st: RuleState, matches: seq<int>, before: int, now: int)
    requires ValidRule(rule) && InI64(now) && Nondecreasing(st.hits) && 0 <= now && before <= now
    requires forall h | h in st.hits :: h <= now
    requires Agree(st.hits, matches, Floor(rule, before))
    ensures Kept(rule, st, now) == Filter(matches + [now], Since(now - rule.windowSecs * 1000))
  {
    var cutoff := now - rule.windowSecs * 1000;
    KeptIs(rule, st, now);
    FilterConcat(matches, [now], Since(cutoff));
    FilterAll([now], Since(cutoff));
  }

  lemma {:induction false} HitsInOrder(rule: AlertRule, ts: seq<int>)
    requires InOrder(ts)
    ensures Nondecreasing(StateAfter(rule, ts).hits)
    ensures forall h | h in StateAfter(rule, ts).hits :: ts != [] && h <= ts[|ts| - 1]
  {
    if ts != [] {
      var front, now := ts[..|ts| - 1], ts[|ts| - 1];
      OrderedPrefix(ts);
      HitsInOrder(rule, front);
      assert front != [] ==> front[|front| - 1] <= now;
      KeptInOrder(StateAfter(rule, front).hits, Wrap(now - rule.windowSecs * 1000), now);
    }
  }

  lemma {:induction false} KeptInOrder(hits: seq<int>, cutoff: int, now: int)
    requires Nondecreasing(hits) && forall h | h in hits :: h <= now
    ensures Nondecreasing(Expire(hits, cutoff) + [now])
    ensures forall h | h in Expire(hits, cutoff) + [now] :: h <= now
  {
    ExpireSuffix(hits, cutoff);
    var left := Expire(hits, cutoff);
    TailInOrder(hits, |hits| - |left|, now);
  }

  lemma {:induction false} TailInOrder(hits: seq<int>, n: nat, now: int)
    requires Nondecreasing(hits) && n <= |hits| && forall h | h in hits :: h <= now
    ensures Nondecreasing(hits[n..] + [now]) && forall h | h in hits[n..] + [now] :: h <= now
  {
    var tail := hits[n..];
    forall h | h in tail ensures h <= now { assert h in hits; }
    forall i, j | 0 <= i < j < |tail + [now]| ensures (tail + [now])[i] <= (tail + [now])[j] {
      assert (tail + [now])[i] == hits[n + i] && hits[n + i] in hits;
      if j < |tail| { assert hits[n + i] <= hits[n + j]; }
    }
  }

  lemma {:induction false} MatchesBefore(rule: AlertRule, ts: seq<int>, now: int)
    requires Nondecreasing(ts) && (ts != [] ==> ts[|ts| - 1] <= now)
    ensures forall m | m in LedgerAfter(rule, ts).matches :: m <= now
  {
    LedgerTail(rule, ts);
    TailBefore(ts, LedgerAfter(rule, ts).matches, now);
  }

  lemma {:induction false} TailBefore(ts: seq<int>, m: seq<int>, now: int)
    requires Nondecreasing(ts) && IsTail(ts, m) && (ts != [] ==> ts[|ts| - 1] <= now)
    ensures forall x | x in m :: x <= now
  {
    forall i | 0 <= i < |m| ensures m[i] <= now {
      assert m[i] == ts[|ts| - |m| + i];
    }
  }

  /** The time of the last match of all but the last, or the last itself if it is the only one. */
  function Previous(ts: seq<int>): int
    requires ts != []
  {
    if |ts| == 1 then ts[0] else ts[|ts| - 2]
  }

  /** The deque and the ledger before the last match of a run in order. */
  ghost predicate Together(rule: AlertRule, ts: seq<int>)
    requires ts != []
  {
    var st, book := StateAfter(rule, ts[..|ts| - 1]), LedgerAfter(rule, ts[..|ts| - 1]);
    st.last == book.last && Agree(st.hits, book.matches, Floor(rule, Previous(ts)))
  }

  ghost predicate UpTo(ts: seq<int>, now: int) {
    forall t | t in ts :: t <= now
  }

  /** Before the last match of a run in order, deque and ledger hold nothing newer than it. */
  lemma {:induction false} BeforeLast(rule: AlertRule, ts: seq<int>)
    requires InOrder(ts) && ts != []
    ensures var st, book, now := StateAfter(rule, ts[..|ts| - 1]), LedgerAfter(rule, ts[..|ts| - 1]), ts[|ts| - 1];
      Nondecreasing(st.hits) && UpTo(st.hits, now) && UpTo(book.matches, now)
  {
    var front, now := ts[..|ts| - 1], ts[|ts| - 1];
    OrderedPrefix(ts);
    HitsInOrder(rule, front);
    assert front != [] ==> front[|front| - 1] <= now;
    MatchesBefore(rule, front, now);
  }

  lemma {:induction false} LastMatch(rule: AlertRule, ts: seq<int>)
    requires ValidRule(rule) && InOrder(ts) && ts != [] && Together(rule, ts)
    ensures var st, book, now := StateAfter(rule, ts[..|ts| - 1]), LedgerAfter(rule, ts[..|ts| - 1]), ts[|ts| - 1];
      && Raised(rule, st, now) == DueAlert(rule, book, now)
      && AfterTally(rule, st, now).last == Entered(rule, book, now).last
      && Agree(AfterTally(rule, st, now).hits, Entered(rule, book, now).matches, Floor(rule, now))
  {
    var st, book, now := StateAfter(rule, ts[..|ts| - 1]), LedgerAfter(rule, ts[..|ts| - 1]), ts[|ts| - 1];
    assert st.last == book.last && Agree(st.hits, book.matches, Floor(rule, Previous(ts)));
    GapExact(rule, ts);
    BeforeLast(rule, ts);
    StepFrom(rule, st, book, ts);
  }

  lemma {:induction false} StepFrom(rule: AlertRule, st: RuleState, book: Ledger, ts: seq<int>)
    requires ValidRule(rule) && Nondecreasing(ts) && ts != [] && Agree(st.hits, book.matches, Floor(rule, Previous(ts)))
    requires var now := ts[|ts| - 1];
      && InI64(now) && Nondecreasing(st.hits)
      && UpTo(st.hits, now) && UpTo(book.matches, now)
      && st.last == book.last && 0 <= st.last && (st.last == 0 || st.last <= now) && Wrap(now - st.last) == now - st.last
    ensures var now := ts[|ts| - 1];
      && Raised(rule, st, now) == DueAlert(rule, book, now)
      && AfterTally(rule, st, now).last == Entered(rule, book, now).last
      && Agree(AfterTally(rule, st, now).hits, Entered(rule, book, now).matches, Floor(rule, now))
  {
    assert Previous(ts) <= ts[|ts| - 1];
    WindowStep(rule, st, book, Previous(ts), ts[|ts| - 1]);
  }

  /** At every point of a run in order the deque and the ledger agree above the floor. */
  lemma {:induction false} AlwaysTogether(rule: AlertRule, ts: seq<int>)
    requires ValidRule(rule) && InOrder(ts) && ts != []
    ensures Together(rule, ts)
  {
    var front := ts[..|ts| - 1];
    OrderedPrefix(ts);
    if front == [] {
      NoMatches(rule);
    } else {
      AlwaysTogether(rule, front);
      LastMatch(rule, front);
    }
  }

  lemma {:induction false} NoMatches(rule: AlertRule)
    ensures StateAfter(rule, []) == FRESH && LedgerAfter(rule, []) == Ledger([], 0)
  {
  }

  /**
   * Window refinement. For 64-bit timestamps in order the alerts, with their counts, are exactly those of
   * the ledger, which forgets nothing and filters the whole history at every match.
   */
  lemma {:induction false} WindowRefinement(rule: AlertRule, ts: seq<int>)
    requires ValidRule(rule) && InOrder(ts)
    ensures AlertsOf(rule, ts) == LedgerAlerts(rule, ts)
  {
    if ts != [] {
      OrderedPrefix(ts);
      WindowRefinement(rule, ts[..|ts| - 1]);
      AlwaysTogether(rule, ts);
      LastMatch(rule, ts);
    }
  }

  /** The matches behind the last one that fired. */
  ghost function SinceAlert(rule: AlertRule, ts: seq<int>): seq<int> {
    var picks := AlertPicks(rule, ts);
    ts[if picks == [] then 0 else picks[|picks| - 1] + 1..]
  }

  lemma {:induction false} SinceSnoc(rule: AlertRule, ts: seq<int>, now: int)
    ensures SinceAlert(rule, ts + [now])
         == if Fires(rule, StateAfter(rule, ts), now) then [] else SinceAlert(rule, ts) + [now]
  {
    var all, picks := ts + [now], AlertPicks(rule, ts);
    assert all[..|all| - 1] == ts && all[|all| - 1] == now;
    if Fires(rule, StateAfter(rule, ts), now) {
      assert AlertPicks(rule, all) == picks + [|ts|];
    } else {
      assert AlertPicks(rule, all) == picks;
    }
  }

  lemma {:induction false} LedgerSnoc(rule: AlertRule, ts: seq<int>, now: int)
    ensures LedgerAfter(rule, ts + [now]) == Entered(rule, LedgerAfter(rule, ts), now)
    ensures AlertsOf(rule, ts + [now]) == AlertsOf(rule, ts) + Raised(rule, StateAfter(rule, ts), now)
    ensures StateAfter(rule, ts + [now]) == AfterTally(rule, StateAfter(rule, ts), now)
  {
    var all := ts + [now];
    assert all[..|all| - 1] == ts && all[|all| - 1] == now;
  }

  /** One more match of a run in order, seen by the rule and by the ledger. */
  lemma {:induction false} BothSee(rule: AlertRule, ts: seq<int>, now: int)
    requires ValidRule(rule) && InOrder(ts + [now])
    ensures InOrder(ts)
    ensures Raised(rule, StateAfter(rule, ts), now) == DueAlert(rule, LedgerAfter(rule, ts), now)
    ensures AfterTally(rule, StateAfter(rule, ts), now).last == Entered(rule, LedgerAfter(rule, ts), now).last
  {
    var all := ts + [now];
    assert all[..|all| - 1] == ts && all[|all| - 1] == now;
    OrderedPrefix(all);
    AlwaysTogether(rule, all);
    LastMatch(rule, all);
  }

  /** The ledger's matches are those, and its last alert the rule's. */
  lemma {:induction false} LedgerSince(rule: AlertRule, ts: seq<int>)
    requires ValidRule(rule) && InOrder(ts)
    ensures LedgerAfter(rule, ts).matches == SinceAlert(rule, ts)
    ensures LedgerAfter(rule, ts).last == StateAfter(rule, ts).last
  {
    if ts != [] {
      var front, now := ts[..|ts| - 1], ts[|ts| - 1];
      assert ts == front + [now];
      BothSee(rule, front, now);
      LedgerSince(rule, front);
      SinceSnoc(rule, front, now);
      LedgerSnoc(rule, front, now);
    }
  }

  /** What the ledger raises, in full. */
  lemma {:induction false} DueInFull(rule: AlertRule, book: Ledger, now: int)
    ensures var window := Filter(book.matches + [now], (t: int) => t >= now - rule.windowSecs * 1000);
      DueAlert(rule, book, now)
      == if |window| >= rule.threshold && now - book.last >= rule.cooldownSecs * 1000 then [Alert(now, |window|)] else []
  {
    FilterSame(book.matches + [now], Since(now - rule.windowSecs * 1000), (t: int) => t >= now - rule.windowSecs * 1000);
  }

  lemma {:induction false} Raises(rule: AlertRule, ts: seq<int>, now: int)
    requires ValidRule(rule) && InOrder(ts + [now])
    ensures AlertsOf(rule, ts + [now])
         == AlertsOf(rule, ts) + DueAlert(rule, Ledger(SinceAlert(rule, ts), StateAfter(rule, ts).last), now)
  {
    BothSee(rule, ts, now);
    LedgerSince(rule, ts);
    LedgerSnoc(rule, ts, now);
    assert LedgerAfter(rule, ts) == Ledger(SinceAlert(rule, ts), StateAfter(rule, ts).last);
  }

  /**
   * Over a run in order, one more match: the alert it raises, if any, follows from the matches alone. It is
   * raised if at least a threshold of the matches since the last alert, this one included, are no older
   * than the window, and the cooldown since that alert (or since time 0) is over; and it counts them.
   */
  lemma {:induction false} FiresIff(rule: AlertRule, ts: seq<int>, now: int)
    requires ValidRule(rule) && InOrder(ts + [now])
    ensures var alerts := AlertsOf(rule, ts);
      var last := if alerts == [] then 0 else alerts[|alerts| - 1].at;
      var window := Filter(SinceAlert(rule, ts) + [now], (t: int) => t >= now - rule.windowSecs * 1000);
      AlertsOf(rule, ts + [now])
      == alerts + if |window| >= rule.threshold && now - last >= rule.cooldownSecs * 1000 then [Alert(now, |window|)] else []
  {
    Raises(rule, ts, now);
    LastAlert(rule, ts);
    DueInFull(rule, Ledger(SinceAlert(rule, ts), StateAfter(rule, ts).last), now);
  }

  // ---------- when the deque itself is the window ----------

  ghost predicate DequeIsWindow(rule: AlertRule, ts: seq<int>) {
    StateAfter(rule, ts).hits == Window(rule, ts)
  }

  lemma {:induction false} ExactKept(rule: AlertRule, st: RuleState, book: Ledger, before: int, now: int)
    requires ValidRule(rule) && InI64(now) && now >= Bottom(rule)
    requires Nondecreasing(book.matches) && (book.matches == [] || before <= now)
    requires st.hits == Filter(book.matches, Since(before - rule.windowSecs * 1000))
    ensures Kept(rule, st, now) == Filter(book.matches + [now], Since(now - rule.windowSecs * 1000))
  {
    var cutoff := now - rule.windowSecs * 1000;
    if book.matches == [] {
      assert st.hits == Filter(book.matches, Since(cutoff));
      SlideWindow(book.matches, now, cutoff, cutoff);
    } else {
      SlideWindow(book.matches, now, before - rule.windowSecs * 1000, cutoff);
    }
  }

  /** One match in range: a deque that was the window still is. */
  lemma {:induction false} ExactStep(rule: AlertRule, st: RuleState, book: Ledger, before: int, now: int)
    requires ValidRule(rule) && InI64(now) && now >= Bottom(rule)
    requires Nondecreasing(book.matches) && (book.matches == [] || before <= now)
    requires st.hits == Filter(book.matches, Since(before - rule.windowSecs * 1000))
    requires Fires(rule, st, now) <==> Due(rule, book, now)
    ensures AfterTally(rule, st, now).hits == Filter(Entered(rule, book, now).matches, Since(now - rule.windowSecs * 1000))
  {
    ExactKept(rule, st, book, before, now);
  }

  lemma {:induction false} FiresTogether(rule: AlertRule, ts: seq<int>)
    requires ValidRule(rule) && InOrder(ts) && ts != []
    ensures Fires(rule, StateAfter(rule, ts[..|ts| - 1]), ts[|ts| - 1])
       <==> Due(rule, LedgerAfter(rule, ts[..|ts| - 1]), ts[|ts| - 1])
  {
    AlwaysTogether(rule, ts);
    LastMatch(rule, ts);
  }

  lemma {:induction false} ExactAt(rule: AlertRule, ts: seq<int>)
    requires ValidRule(rule) && InOrder(ts) && ts != [] && ts[|ts| - 1] >= Bottom(rule)
    requires DequeIsWindow(rule, ts[..|ts| - 1])
    ensures var st, book, now := StateAfter(rule, ts[..|ts| - 1]), LedgerAfter(rule, ts[..|ts| - 1]), ts[|ts| - 1];
      AfterTally(rule, st, now).hits == Filter(Entered(rule, book, now).matches, Since(now - rule.windowSecs * 1000))
  {
    FiresTogether(rule, ts);
    LedgerBefore(rule, ts);
    assert ts[|ts| - 1] in ts;
    ExactStep(rule, StateAfter(rule, ts[..|ts| - 1]), LedgerAfter(rule, ts[..|ts| - 1]), Latest(ts[..|ts| - 1]), ts[|ts| - 1]);
  }

  lemma {:induction false} InRangeKeeps(rule: AlertRule, ts: seq<int>)
    requires ValidRule(rule) && InOrder(ts) && ts != [] && ts[|ts| - 1] >= Bottom(rule)
    requires DequeIsWindow(rule, ts[..|ts| - 1])
    ensures DequeIsWindow(rule, ts)
  {
    ExactAt(rule, ts);
  }

  lemma {:induction false} LedgerBefore(rule: AlertRule, ts: seq<int>)
    requires InOrder(ts) && ts != []
    ensures var m := LedgerAfter(rule, ts[..|ts| - 1]).matches;
      Nondecreasing(m) && (m == [] || Latest(ts[..|ts| - 1]) <= ts[|ts| - 1])
  {
    OrderedPrefix(ts);
    LedgerOrdered(rule, ts[..|ts| - 1]);
    if |ts| == 1 {
      NoMatches(rule);
      assert ts[..0] == [];
    }
  }

  lemma {:induction false} FirstIsWindow(rule: AlertRule, ts: seq<int>)
    requires ValidRule(rule) && InOrder(ts) && |ts| == 1
    ensures DequeIsWindow(rule, ts)
  {
    FiresTogether(rule, ts);
    NoMatches(rule);
    assert ts[..0] == [] && ts[0] in ts;
    KeptIs(rule, FRESH, ts[0]);
    assert Kept(rule, FRESH, ts[0]) == [ts[0]];
    FilterAll([ts[0]], Since(ts[0] - rule.windowSecs * 1000));
    assert [] + [ts[0]] == [ts[0]];
  }

  lemma {:induction false} AboveBottom(rule: AlertRule, ts: seq<int>)
    requires ValidRule(rule) && InOrder(ts) && (|ts| > 1 ==> ts[1] >= Bottom(rule))
    ensures DequeIsWindow(rule, ts)
  {
    if ts == [] {
      NoMatches(rule);
    } else if |ts| == 1 {
      FirstIsWindow(rule, ts);
    } else {
      OrderedPrefix(ts);
      AboveBottom(rule, ts[..|ts| - 1]);
      assert ts[1] <= ts[|ts| - 1];
      InRangeKeeps(rule, ts);
    }
  }

  /** Far below time 0 nothing fires: the state and the ledger each just take the match in. */
  lemma {:induction false} BottomStep(rule: AlertRule, hits: seq<int>, matches: seq<int>, now: int)
    requires ValidRule(rule) && InI64(now) && now < Bottom(rule) && forall h | h in hits :: h <= now
    ensures AfterTally(rule, RuleState(hits, 0), now) == RuleState([now], 0)
    ensures Entered(rule, Ledger(matches, 0), now) == Ledger(matches + [now], 0)
  {
    ExpireAll(hits, Wrap(now - rule.windowSecs * 1000));
    assert [] + [now] == [now];
  }

  lemma {:induction false} TwoStates(rule: AlertRule, a: int, b: int)
    ensures StateAfter(rule, [a, b]) == AfterTally(rule, AfterTally(rule, FRESH, a), b)
    ensures LedgerAfter(rule, [a, b]) == Entered(rule, Entered(rule, Ledger([], 0), a), b)
  {
    assert [a, b][..1] == [a] && [a][..0] == [];
    assert StateAfter(rule, [a]) == AfterTally(rule, FRESH, a);
    assert LedgerAfter(rule, [a]) == Entered(rule, Ledger([], 0), a);
  }

  lemma {:induction false} BottomStates(rule: AlertRule, a: int, b: int)
    requires ValidRule(rule) && InI64(a) && a <= b < Bottom(rule)
    ensures StateAfter(rule, [a, b]) == RuleState([b], 0) && LedgerAfter(rule, [a, b]) == Ledger([a, b], 0)
  {
    TwoStates(rule, a, b);
    BottomStep(rule, [], [], a);
    BottomStep(rule, [a], [] + [a], b);
    assert [] + [a] + [b] == [a, b];
  }

  /** Two matches at the very bottom of the range: the deque has already lost the first. */
  lemma {:induction false} LostAtBottom(rule: AlertRule, a: int, b: int)
    requires ValidRule(rule) && InI64(a) && a <= b < Bottom(rule)
    ensures StateAfter(rule, [a, b]).hits == [b] && Window(rule, [a, b]) == [a, b]
  {
    BottomStates(rule, a, b);
    AllSince(a, b, b - rule.windowSecs * 1000);
  }

  lemma {:induction false} AllSince(a: int, b: int, cutoff: int)
    requires cutoff <= a <= b
    ensures Filter([a, b], Since(cutoff)) == [a, b]
  {
    FilterAll([a, b], Since(cutoff));
  }

  /**
   * For 64-bit timestamps in order the deque is, at every point of the run, exactly the matches since the
   * last alert no older than the window, if and only if no two matches lie within a window's length of the
   * bottom of the range.
   */
  lemma {:induction false} DequeIsWindowIff(rule: AlertRule, ts: seq<int>)
    requires ValidRule(rule) && InOrder(ts)
    ensures (forall n | 0 <= n <= |ts| :: DequeIsWindow(rule, ts[..n])) <==> (|ts| > 1 ==> ts[1] >= Bottom(rule))
  {
    if |ts| > 1 && ts[1] < Bottom(rule) {
      assert ts[0] in ts && ts[..2] == [ts[0], ts[1]];
      LostAtBottom(rule, ts[0], ts[1]);
      assert !DequeIsWindow(rule, ts[..2]);
    } else {
      forall n | 0 <= n <= |ts| ensures DequeIsWindow(rule, ts[..n]) {
        PrefixInOrder(ts, n);
        AboveBottom(rule, ts[..n]);
      }
    }
  }

  lemma {:induction false} PrefixInOrder(ts: seq<int>, n: nat)
    requires InOrder(ts) && n <= |ts|
    ensures InOrder(ts[..n])
  {
    forall t | t in ts[..n] ensures InI64(t) { assert t in ts; }
  }

  // ---------- greedy firing is optimal ----------

  /** Positions of matches in order and pairwise a cooldown apart. */
  ghost predicate Apart(rule: AlertRule, ts: seq<int>, picks: seq<int>) {
    && (forall k | 0 <= k < |picks| :: 0 <= picks[k] < |ts|)
    && (forall k, l | 0 <= k < l < |picks| ::
          picks[k] < picks[l] && ts[picks[l]] - ts[picks[k]] >= rule.cooldownSecs * 1000)
  }

  /** Matches that could all have been alerts: the initial cooldown, counted from time 0, is over too. */
  ghost predicate Choice(rule: AlertRule, ts: seq<int>, picks: seq<int>) {
    Apart(rule, ts, picks) && forall k | 0 <= k < |picks| :: ts[picks[k]] >= rule.cooldownSecs * 1000
  }

  ghost predicate Every(rule: AlertRule, ts: seq<int>) {
    ValidRule(rule) && rule.threshold == 1 && InOrder(ts)
  }

  /** With threshold 1 a match fires exactly when the cooldown has elapsed. */
  lemma {:induction false} FiresWhenCool(rule: AlertRule, ts: seq<int>, now: int)
    requires Every(rule, ts + [now])
    ensures Fires(rule, StateAfter(rule, ts), now)
       <==> now - StateAfter(rule, ts).last >= rule.cooldownSecs * 1000
    ensures AlertsOf(rule, ts) == [] ==>
              (Fires(rule, StateAfter(rule, ts), now) <==> now >= rule.cooldownSecs * 1000)
  {
    assert (ts + [now])[..|ts|] == ts;
    GapExact(rule, ts + [now]);
    LastAlert(rule, ts);
  }

  lemma {:induction false} EveryPrefix(rule: AlertRule, ts: seq<int>)
    requires Every(rule, ts) && ts != []
    ensures Every(rule, ts[..|ts| - 1]) && ts == ts[..|ts| - 1] + [ts[|ts| - 1]]
  {
    var front := ts[..|ts| - 1];
    forall t | t in front ensures t in ts {}
  }

  lemma {:induction false} ChoicePrefix(rule: AlertRule, ts: seq<int>, picks: seq<int>)
    requires Choice(rule, ts, picks) && ts != []
    ensures picks == [] || picks[|picks| - 1] < |ts| - 1 ==> Choice(rule, ts[..|ts| - 1], picks)
    ensures picks != [] && picks[|picks| - 1] == |ts| - 1 ==> Choice(rule, ts[..|ts| - 1], picks[..|picks| - 1])
  {
  }

  /** The rule stays ahead of every other choice: at least as many alerts, none later for as many. */
  ghost predicate Ahead(rule: AlertRule, ts: seq<int>, picks: seq<int>)
    requires forall k | 0 <= k < |picks| :: 0 <= picks[k] < |ts|
  {
    && |picks| <= |AlertsOf(rule, ts)|
    && (picks != [] && |picks| == |AlertsOf(rule, ts)| ==>
          StateAfter(rule, ts).last <= ts[picks[|picks| - 1]])
  }

  lemma {:induction false} StaysAhead(rule: AlertRule, ts: seq<int>, picks: seq<int>)
    requires Every(rule, ts) && Choice(rule, ts, picks)
    ensures Ahead(rule, ts, picks)
  {
    if ts != [] {
      var front, now := ts[..|ts| - 1], ts[|ts| - 1];
      EveryPrefix(rule, ts);
      ChoicePrefix(rule, ts, picks);
      if picks != [] && picks[|picks| - 1] == |ts| - 1 {
        var rest := picks[..|picks| - 1];
        StaysAhead(rule, front, rest);
        assert picks == rest + [|front|];
        AheadTaking(rule, front, now, rest);
      } else {
        StaysAhead(rule, front, picks);
        AheadLeaving(rule, front, now, picks);
      }
    }
  }

  lemma {:induction false} AheadTaking(rule: AlertRule, front: seq<int>, now: int, rest: seq<int>)
    requires Every(rule, front + [now]) && Choice(rule, front + [now], rest + [|front|])
    requires Choice(rule, front, rest) && Ahead(rule, front, rest)
    ensures Ahead(rule, front + [now], rest + [|front|])
  {
    var picks, last := rest + [|front|], StateAfter(rule, front).last;
    assert (front + [now])[..|front|] == front && picks[|rest|] == |front|;
    FiresWhenCool(rule, front, now);
    LastSeen(rule, front, now);
    assert now >= rule.cooldownSecs * 1000;
    if rest != [] && |rest| == |AlertsOf(rule, front)| {
      assert picks[|rest| - 1] == rest[|rest| - 1];
      assert (front + [now])[picks[|rest|]] - (front + [now])[picks[|rest| - 1]] >= rule.cooldownSecs * 1000;
      assert Fires(rule, StateAfter(rule, front), now);
    }
  }

  lemma {:induction false} AheadLeaving(rule: AlertRule, front: seq<int>, now: int, picks: seq<int>)
    requires Every(rule, front + [now]) && Choice(rule, front, picks) && Ahead(rule, front, picks)
    ensures Ahead(rule, front + [now], picks)
  {
    assert (front + [now])[..|front|] == front;
  }

  /** The last alert is not later than the next match. */
  lemma {:induction false} LastSeen(rule: AlertRule, ts: seq<int>, now: int)
    requires Every(rule, ts + [now]) && now >= 0
    ensures StateAfter(rule, ts).last <= now
  {
    StateFrom(rule, ts);
    var last := StateAfter(rule, ts).last;
    if last in ts {
      var i :| 0 <= i < |ts| && ts[i] == last;
      assert (ts + [now])[i] <= (ts + [now])[|ts|];
    }
  }

  /** No alert falls inside the initial cooldown. */
  lemma {:induction false} AlertsLate(rule: AlertRule, ts: seq<int>)
    requires Every(rule, ts)
    ensures forall k | 0 <= k < |AlertsOf(rule, ts)| :: AlertsOf(rule, ts)[k].at >= rule.cooldownSecs * 1000
  {
    if ts != [] {
      var front, now := ts[..|ts| - 1], ts[|ts| - 1];
      EveryPrefix(rule, ts);
      AlertsLate(rule, front);
      FiresWhenCool(rule, front, now);
      LastAlert(rule, front);
    }
  }

  /**
   * Greedy is optimal: for threshold 1 and ordered timestamps the number of alerts is the largest number
   * of matches, none inside the initial cooldown, that can be chosen pairwise a cooldown apart.
   */
  lemma {:induction false} GreedyOptimal(rule: AlertRule, ts: seq<int>)
    requires Every(rule, ts)
    ensures forall picks | Choice(rule, ts, picks) :: |picks| <= |AlertsOf(rule, ts)|
    ensures exists picks :: Choice(rule, ts, picks) && |picks| == |AlertsOf(rule, ts)|
  {
    forall picks | Choice(rule, ts, picks) ensures |picks| <= |AlertsOf(rule, ts)| {
      StaysAhead(rule, ts, picks);
    }
    PicksAreAlerts(rule, ts);
    Spacing(rule, ts);
    AlertsLate(rule, ts);
    assert Choice(rule, ts, AlertPicks(rule, ts));
  }

  /** If the first match is not inside the initial cooldown, no choice a cooldown apart beats the alerts. */
  lemma {:induction false} GreedyLargest(rule: AlertRule, ts: seq<int>, picks: seq<int>)
    requires Every(rule, ts) && Apart(rule, ts, picks) && (ts != [] ==> ts[0] >= rule.cooldownSecs * 1000)
    ensures |picks| <= |AlertsOf(rule, ts)|
  {
    AllLate(ts, picks, rule.cooldownSecs * 1000);
    StaysAhead(rule, ts, picks);
  }

  lemma {:induction false} AllLate(ts: seq<int>, picks: seq<int>, start: int)
    requires Nondecreasing(ts) && (ts != [] ==> ts[0] >= start)
    requires forall k | 0 <= k < |picks| :: 0 <= picks[k] < |ts|
    ensures forall k | 0 <= k < |picks| :: ts[picks[k]] >= start
  {
    forall k | 0 <= k < |picks| ensures ts[picks[k]] >= start {
      assert ts[0] <= ts[picks[k]];
    }
  }

  /** The initial cooldown counts from time 0, so that hypothesis is needed. */
  lemma {:induction false} GreedyNeedsLateStart() returns (rule: AlertRule, ts: seq<int>)
    ensures ValidRule(rule) && rule.threshold == 1 && InOrder(ts)
    ensures AlertsOf(rule, ts) == [] && Apart(rule, ts, [0])
  {
    rule := AlertRule(1, "r", true, 0, None, None, None, 1, 300, 900);
    ts := [5];
    assert ts[..0] == [] && StateAfter(rule, ts[..0]) == FRESH;
  }

  // ---------- many rules over one log stream ----------

  /** All rules after a run of log lines, as Engine.Observe leaves them. */
  function SlotsAfter(lower: string -> string, slots: seq<Slot>, logs: seq<LogRecord>): (after: seq<Slot>)
    ensures |after| == |slots|
  {
    if logs == [] then slots
    else ObservedAll(lower, SlotsAfter(lower, slots, logs[..|logs| - 1]), logs[|logs| - 1])
  }

  /** The events of the rule in place `i`, over the run. */
  function FiredBy(lower: string -> string, slots: seq<Slot>, logs: seq<LogRecord>, i: nat): seq<AlertEvent>
    requires i < |slots|
  {
    if logs == [] then []
    else
      var front, log := logs[..|logs| - 1], logs[|logs| - 1];
      var e := EventOf(lower, SlotsAfter(lower, slots, front)[i], log);
      FiredBy(lower, slots, front, i) + if e.Some? then [e.value] else []
  }

  function MatchTimes(lower: string -> string, rule: AlertRule, logs: seq<LogRecord>): seq<int> {
    if logs == [] then []
    else
      var log := logs[|logs| - 1];
      MatchTimes(lower, rule, logs[..|logs| - 1]) + if Matches(lower, rule, log) then [log.ts] else []
  }

  function Summary(events: seq<AlertEvent>): seq<Alert> {
    seq(|events|, i requires 0 <= i < |events| => Alert(events[i].firedAt, events[i].count))
  }

  /** A line matches exactly when it is severe enough and passes each filter the rule has. */
  lemma {:induction false} MatchesIs(lower: string -> string, rule: AlertRule, log: LogRecord)
    ensures Matches(lower, rule, log) <==>
              && log.level >= rule.minLevel
              && (rule.deviceId.Some? ==> log.deviceId == Some(rule.deviceId.value))
              && (rule.nameFilter.Some? ==> Trim(log.name) == Trim(rule.nameFilter.value))
              && (rule.contains.Some? ==>
                    exists before, after :: lower(log.message) == before + lower(rule.contains.value) + after)
  {
    if rule.contains.Some? { ContainsIs(lower(log.message), lower(rule.contains.value)); }
  }

  /** Rules do not interfere: after a reload, each rule's window and alerts are those of a run in
      which it is alone and sees only the lines that match it. */
  lemma {:induction false} SoloRun(lower: string -> string, slots: seq<Slot>, logs: seq<LogRecord>, i: nat)
    requires i < |slots| && slots[i].st == FRESH
    ensures var rule := slots[i].rule;
      && SlotsAfter(lower, slots, logs)[i] == Slot(rule, StateAfter(rule, MatchTimes(lower, rule, logs)))
      && Summary(FiredBy(lower, slots, logs, i)) == AlertsOf(rule, MatchTimes(lower, rule, logs))
  {
    if logs != [] {
      var front, log, rule := logs[..|logs| - 1], logs[|logs| - 1], slots[i].rule;
      SoloRun(lower, slots, front, i);
      var ts := MatchTimes(lower, rule, logs);
      if !Matches(lower, rule, log) {
        assert ts == MatchTimes(lower, rule, front);
      } else {
        assert ts[..|ts| - 1] == MatchTimes(lower, rule, front) && ts[|ts| - 1] == log.ts;
      }
    }
  }

  /** What is told of an alert: its rule, and a line of the run that passes every filter of the rule. */
  lemma {:induction false} Triggers(lower: string -> string, slots: seq<Slot>, logs: seq<LogRecord>, i: nat, e: AlertEvent)
    requires i < |slots| && slots[i].st == FRESH && e in FiredBy(lower, slots, logs, i)
    ensures var rule, log := slots[i].rule, e.trigger;
      && e == AlertEvent(rule.id, rule.name, e.count, rule.windowSecs, log.ts, log) && log in logs
      && log.level >= rule.minLevel
      && (rule.deviceId.Some? ==> log.deviceId == Some(rule.deviceId.value))
      && (rule.nameFilter.Some? ==> Trim(log.name) == Trim(rule.nameFilter.value))
      && (rule.contains.Some? ==>
            exists before, after :: lower(log.message) == before + lower(rule.contains.value) + after)
  {
    var front, log := logs[..|logs| - 1], logs[|logs| - 1];
    assert logs == front + [log];
    SoloRun(lower, slots, front, i);
    if e in FiredBy(lower, slots, front, i) {
      Triggers(lower, slots, front, i, e);
    } else {
      MatchesIs(lower, slots[i].rule, log);
    }
  }

  /** The matches of a run are the times of exactly the lines that pass every filter, in order. */
  lemma {:induction false} MatchTimesAre(lower: string -> string, rule: AlertRule, logs: seq<LogRecord>, passes: LogRecord -> bool)
    requires forall log :: passes(log) <==>
               && log.level >= rule.minLevel
               && (rule.deviceId.Some? ==> log.deviceId == Some(rule.deviceId.value))
               && (rule.nameFilter.Some? ==> Trim(log.name) == Trim(rule.nameFilter.value))
               && (rule.contains.Some? ==>
                     exists before, after :: lower(log.message) == before + lower(rule.contains.value) + after)
    ensures MatchTimes(lower, rule, logs) == TimesOf(Filter(logs, passes))
  {
    if logs != [] {
      var front, log := logs[..|logs| - 1], logs[|logs| - 1];
      MatchTimesAre(lower, rule, front, passes);
      MatchesIs(lower, rule, log);
      assert passes(log) <==> Matches(lower, rule, log);
      if passes(log) { TimesSnoc(Filter(front, passes), log); }
    }
  }

  function TimesOf(logs: seq<LogRecord>): seq<int> {
    seq(|logs|, i requires 0 <= i < |logs| => logs[i].ts)
  }

  lemma {:induction false} TimesSnoc(logs: seq<LogRecord>, log: LogRecord)
    ensures TimesOf(logs + [log]) == TimesOf(logs) + [log.ts]
  {
  }

  // ---------- what reaches the delivery channel ----------

  /** A line's events are offered in the order of the rules. */
  lemma {:induction false} RuleOrder(lower: string -> string, a: seq<Slot>, b: seq<Slot>, log: LogRecord)
    ensures EventsOf(lower, a + b, log) == EventsOf(lower, a, log) + EventsOf(lower, b, log)
    ensures forall slot :: EventsOf(lower, [slot], log) == Listed(EventOf(lower, slot, log))
  {
    forall slot ensures EventsOf(lower, [slot], log) == Listed(EventOf(lower, slot, log)) {
      assert [slot][..0] == [];
    }
    if b == [] {
      assert a + b == a;
    } else {
      assert (a + b)[..|a + b| - 1] == a + b[..|b| - 1];
      RuleOrder(lower, a, b[..|b| - 1], log);
    }
  }

  /** Everything offered over the run, in the order offered. */
  function AllFired(lower: string -> string, slots: seq<Slot>, logs: seq<LogRecord>): seq<AlertEvent> {
    if logs == [] then []
    else
      var front, log := logs[..|logs| - 1], logs[|logs| - 1];
      AllFired(lower, slots, front) + EventsOf(lower, SlotsAfter(lower, slots, front), log)
  }

  ghost predicate DistinctRules(slots: seq<Slot>) {
    forall i, j | 0 <= i < j < |slots| :: slots[i].rule.id != slots[j].rule.id
  }

  ghost function OfRule(id: int): AlertEvent -> bool { (e: AlertEvent) => e.ruleId == id }

  lemma {:induction false} NoEvents(lower: string -> string, slots: seq<Slot>, log: LogRecord, id: int)
    requires forall i | 0 <= i < |slots| :: slots[i].rule.id != id
    ensures Filter(EventsOf(lower, slots, log), OfRule(id)) == []
  {
    if slots != [] {
      var front, last := slots[..|slots| - 1], slots[|slots| - 1];
      NoEvents(lower, front, log, id);
      OneMoreEvent(EventsOf(lower, front, log), EventOf(lower, last, log), last.rule.id, id);
      assert EventsOf(lower, slots, log) == EventsOf(lower, front, log) + Listed(EventOf(lower, last, log));
    }
  }

  /** One line offers each rule's event once: those of rule `i` among them are just its own. */
  lemma {:induction false} OwnEvents(lower: string -> string, slots: seq<Slot>, log: LogRecord, i: nat)
    requires DistinctRules(slots) && i < |slots|
    ensures Filter(EventsOf(lower, slots, log), OfRule(slots[i].rule.id)) == Listed(EventOf(lower, slots[i], log))
  {
    var front, last, id := slots[..|slots| - 1], slots[|slots| - 1], slots[i].rule.id;
    if i < |front| {
      OwnEvents(lower, front, log, i);
    } else {
      NoEvents(lower, front, log, id);
    }
    OneMoreEvent(EventsOf(lower, front, log), EventOf(lower, last, log), last.rule.id, id);
    assert EventsOf(lower, slots, log) == EventsOf(lower, front, log) + Listed(EventOf(lower, last, log));
  }

  lemma {:induction false} OneMoreEvent(events: seq<AlertEvent>, e: Option<AlertEvent>, rule: int, id: int)
    requires e.Some? ==> e.value.ruleId == rule
    ensures Filter(events + Listed(e), OfRule(id)) == Filter(events, OfRule(id)) + if rule == id then Listed(e) else []
  {
    FilterConcat(events, Listed(e), OfRule(id));
    if e.Some? {
      assert Filter([e.value], OfRule(id)) == if rule == id then [e.value] else [];
    }
  }

  /** Nothing is lost on the way to the channel: of all that is offered over a run, what carries a rule's
      id is exactly that rule's alerts, in order. */
  lemma {:induction false} OfferedByRule(lower: string -> string, slots: seq<Slot>, logs: seq<LogRecord>, i: nat)
    requires i < |slots| && slots[i].st == FRESH && DistinctRules(slots)
    ensures Filter(AllFired(lower, slots, logs), OfRule(slots[i].rule.id)) == FiredBy(lower, slots, logs, i)
  {
    if logs != [] {
      var front, log := logs[..|logs| - 1], logs[|logs| - 1];
      var now := SlotsAfter(lower, slots, front);
      OfferedByRule(lower, slots, front, i);
      SameRules(lower, slots, front);
      OwnEvents(lower, now, log, i);
      FilterConcat(AllFired(lower, slots, front), EventsOf(lower, now, log), OfRule(slots[i].rule.id));
    }
  }

  lemma {:induction false} SameRules(lower: string -> string, slots: seq<Slot>, logs: seq<LogRecord>)
    ensures forall i | 0 <= i < |slots| :: SlotsAfter(lower, slots, logs)[i].rule == slots[i].rule
  {
    if logs != [] { SameRules(lower, slots, logs[..|logs| - 1]); }
  }
}
