/** Rule matching and firing (src/alerts/engine.rs). */
module AlertEngine {
  import opened Basics
  import opened Records
  import opened Text

  // ---------- 64-bit arithmetic: a release build wraps ----------

  /** The result `x` of one addition or subtraction of 64-bit values, as the machine delivers it. */
  function Wrap(x: int): int {
    if x >= TWO63 then x - 2 * TWO63 else if x < -TWO63 then x + 2 * TWO63 else x
  }

  datatype AlertRule = AlertRule(
    id: int,
    name: string,
    enabled: bool,
    minLevel: nat,
    deviceId: Option<int>,
    nameFilter: Option<string>,
    contains: Option<string>,
    threshold: int,
    windowSecs: int,
    cooldownSecs: int)

  /** What store/alerts.rs stores after clamping. */
  predicate ValidRule(r: AlertRule) {
    1 <= r.threshold <= 100_000 && 1 <= r.windowSecs <= 86_400 && 0 <= r.cooldownSecs <= 86_400
  }

  datatype AlertEvent = AlertEvent(ruleId: int, ruleName: string, count: int, windowSecs: int, firedAt: int, trigger: LogRecord)

  /** Sliding-window state of one rule: recent match times, oldest first, and the last firing. */
  datatype RuleState = RuleState(hits: seq<int>, last: int)

  const FRESH := RuleState([], 0)

  /** The front of the deque is popped while it lies before the cutoff. */
  function Expire(hits: seq<int>, cutoff: int): seq<int> {
    if hits != [] && hits[0] < cutoff then Expire(hits[1..], cutoff) else hits
  }

  /** The hits a match at `now` is counted with, itself included. */
  function Kept(rule: AlertRule, st: RuleState, now: int): seq<int> {
    Expire(st.hits, Wrap(now - rule.windowSecs * 1000)) + [now]
  }

  predicate Fires(rule: AlertRule, st: RuleState, now: int) {
    |Kept(rule, st, now)| >= rule.threshold && Wrap(now - st.last) >= rule.cooldownSecs * 1000
  }

  function AfterTally(rule: AlertRule, st: RuleState, now: int): RuleState {
    if Fires(rule, st, now) then RuleState([], now) else RuleState(Kept(rule, st, now), st.last)
  }

  /** `lower` stands for the Unicode lower-casing of the standard library. */
  predicate Matches(lower: string -> string, rule: AlertRule, log: LogRecord) {
    && log.level >= rule.minLevel
    && (rule.deviceId.Some? ==> log.deviceId == rule.deviceId)
    && (rule.nameFilter.Some? ==> Trim(log.name) == Trim(rule.nameFilter.value))
    && (rule.contains.Some? ==> Contains(lower(log.message), lower(rule.contains.value)))
  }

  datatype Slot = Slot(rule: AlertRule, st: RuleState)

  /** One log line against one rule. */
  function Observed(lower: string -> string, slot: Slot, log: LogRecord): Slot {
    if Matches(lower, slot.rule, log) then slot.(st := AfterTally(slot.rule, slot.st, log.ts)) else slot
  }

  function EventOf(lower: string -> string, slot: Slot, log: LogRecord): Option<AlertEvent> {
    if Matches(lower, slot.rule, log) && Fires(slot.rule, slot.st, log.ts) then
      Some(AlertEvent(slot.rule.id, slot.rule.name, |Kept(slot.rule, slot.st, log.ts)|, slot.rule.windowSecs, log.ts, log))
    else None
  }

  function ObservedAll(lower: string -> string, slots: seq<Slot>, log: LogRecord): seq<Slot> {
    seq(|slots|, i requires 0 <= i < |slots| => Observed(lower, slots[i], log))
  }

  /** The events one log line fires, in rule order. */
  function EventsOf(lower: string -> string, slots: seq<Slot>, log: LogRecord): seq<AlertEvent> {
    if slots == [] then []
    else
      var rest := EventsOf(lower, slots[..|slots| - 1], log);
      var e := EventOf(lower, slots[|slots| - 1], log);
      if e.Some? then rest + [e.value] else rest
  }

  /** try_send on the bounded delivery channel: what does not fit is dropped. */
  function Offered(queue: seq<AlertEvent>, capacity: nat, events: seq<AlertEvent>): seq<AlertEvent> {
    queue + if |queue| + |events| <= capacity then events
            else if |queue| <= capacity then events[..capacity - |queue|] else []
  }

  function FreshSlots(rules: seq<AlertRule>): seq<Slot> {
    if rules == [] then []
    else
      var rest := FreshSlots(rules[..|rules| - 1]);
      var rule := rules[|rules| - 1];
      if rule.enabled then rest + [Slot(rule, FRESH)] else rest
  }

  /** The enabled rules, in order, each with an empty window and no last firing. */
  lemma {:induction false} FreshSlotsAre(rules: seq<AlertRule>)
    ensures var slots, active := FreshSlots(rules), Filter(rules, (r: AlertRule) => r.enabled);
      |slots| == |active| && forall i | 0 <= i < |slots| :: slots[i] == Slot(active[i], RuleState([], 0))
  {
    if rules != [] {
      FreshSlotsAre(rules[..|rules| - 1]);
    }
  }

  class Compiled {
    const rule: AlertRule
    const containsLower: Option<string>
    var hits: seq<int>
    var lastFiredAt: int

    constructor (lower: string -> string, rule: AlertRule)
      ensures this.rule == rule && AsSlot() == Slot(rule, FRESH) && LoweredBy(lower)
    {
      this.rule := rule;
      containsLower := if rule.contains.Some? then Some(lower(rule.contains.value)) else None;
      hits := [];
      lastFiredAt := 0;
    }

    ghost predicate LoweredBy(lower: string -> string) {
      containsLower == if rule.contains.Some? then Some(lower(rule.contains.value)) else None
    }

    ghost function AsSlot(): Slot
      reads this
    {
      Slot(rule, RuleState(hits, lastFiredAt))
    }

    /** The cheap tests come first; the answer is the conjunction of the filters present. */
    method Match(lower: string -> string, log: LogRecord) returns (yes: bool)
      requires LoweredBy(lower)
      ensures yes == Matches(lower, rule, log)
      ensures yes <==>
                && log.level >= rule.minLevel
                && (rule.deviceId.Some? ==> log.deviceId == Some(rule.deviceId.value))
                && (rule.nameFilter.Some? ==> Trim(log.name) == Trim(rule.nameFilter.value))
                && (rule.contains.Some? ==>
                      exists before, after :: lower(log.message) == before + lower(rule.contains.value) + after)
    {
      if rule.contains.Some? { ContainsIs(lower(log.message), lower(rule.contains.value)); }
      if log.level < rule.minLevel {
        return false;
      }
      if rule.deviceId.Some? && log.deviceId != Some(rule.deviceId.value) {
        return false;
      }
      if rule.nameFilter.Some? && Trim(log.name) != Trim(rule.nameFilter.value) {
        return false;
      }
      if containsLower.Some? && !Contains(lower(log.message), containsLower.value) {
        return false;
      }
      return true;
    }

    /** Counts one matching line in; what comes back is the alert it completes, if it completes one. */
    method Tally(log: LogRecord) returns (event: Option<AlertEvent>)
      modifies this
      ensures AsSlot() == old(AsSlot()).(st := AfterTally(rule, old(AsSlot()).st, log.ts))
      ensures event == if Fires(rule, old(AsSlot()).st, log.ts)
                       then Some(AlertEvent(rule.id, rule.name, |Kept(rule, old(AsSlot()).st, log.ts)|, rule.windowSecs, log.ts, log))
                       else None
    {
      var now := log.ts;
      var cutoff := Wrap(now - rule.windowSecs * 1000);
      while hits != [] && hits[0] < cutoff
        invariant Expire(hits, cutoff) == Expire(old(hits), cutoff)
        invariant lastFiredAt == old(lastFiredAt)
        decreases |hits|
      {
        hits := hits[1..];
      }
      hits := hits + [now];
      if |hits| < rule.threshold {
        return None;
      }
      if Wrap(now - lastFiredAt) < rule.cooldownSecs * 1000 {
        return None;
      }
      lastFiredAt := now;
      var count := |hits|;
      hits := [];
      return Some(AlertEvent(rule.id, rule.name, count, rule.windowSecs, now, log));
    }
  }

  class Engine {
    const lower: string -> string
    const capacity: nat
    var rules: seq<Compiled>
    var queue: seq<AlertEvent>         // the delivery channel
    ghost var slots: seq<Slot>         // the rules and their windows, as values

    ghost predicate Valid()
      reads this, rules
    {
      && |slots| == |rules| && |queue| <= capacity
      && (forall i | 0 <= i < |rules| :: rules[i].AsSlot() == slots[i] && rules[i].LoweredBy(lower))
      && (forall i, j | 0 <= i < j < |rules| :: rules[i] != rules[j])
    }

    constructor (lower: string -> string, capacity: nat)
      ensures Valid() && slots == [] && queue == []
      ensures this.lower == lower && this.capacity == capacity
    {
      this.lower := lower;
      this.capacity := capacity;
      rules, queue, slots := [], [], [];
    }

    /** Replaces the rule set; windows start again. */
    method Reload(list: seq<AlertRule>)
      requires Valid()
      modifies this
      ensures Valid() && fresh(rules) && queue == old(queue)
      ensures slots == FreshSlots(list)
      ensures var active := Filter(list, (r: AlertRule) => r.enabled);
        |slots| == |active| && forall i | 0 <= i < |slots| :: slots[i] == Slot(active[i], RuleState([], 0))
    {
      var compiled: seq<Compiled> := [];
      var i := 0;
      while i < |list|
        invariant 0 <= i <= |list| && queue == old(queue)
        invariant fresh(compiled) && |compiled| == |FreshSlots(list[..i])|
        invariant forall j | 0 <= j < |compiled| ::
                    compiled[j].AsSlot() == FreshSlots(list[..i])[j] && compiled[j].LoweredBy(lower)
        invariant forall j, k | 0 <= j < k < |compiled| :: compiled[j] != compiled[k]
      {
        assert list[..i + 1][..i] == list[..i];
        if list[i].enabled {
          var c := new Compiled(lower, list[i]);
          compiled := compiled + [c];
        }
        i := i + 1;
      }
      assert list[..i] == list;
      rules := compiled;
      slots := FreshSlots(list);
      FreshSlotsAre(list);
    }

    /** One rule against one line: a match is tallied, and an event is offered on if there is room. */
    method Consult(c: Compiled, log: LogRecord)
      requires c.LoweredBy(lower) && |queue| <= capacity
      modifies this`queue, c
      ensures c.AsSlot() == Observed(lower, old(c.AsSlot()), log)
      ensures queue == Offered(old(queue), capacity, Listed(EventOf(lower, old(c.AsSlot()), log)))
    {
      assert old(queue) + [] == old(queue);
      var matched := c.Match(lower, log);
      if matched {
        var event := c.Tally(log);
        if event.Some? && |queue| < capacity {
          queue := queue + [event.value];
        }
      }
    }

    /** Called for every ingested line: each matching rule is tallied, and what fires is offered on. */
    method Observe(log: LogRecord)
      requires Valid()
      modifies this, rules
      ensures Valid() && rules == old(rules)
      ensures slots == ObservedAll(lower, old(slots), log)
      ensures queue == Offered(old(queue), capacity, EventsOf(lower, old(slots), log))
      ensures var all := old(queue) + EventsOf(lower, old(slots), log);
        queue == if |all| <= capacity then all else all[..capacity]
    {
      ghost var before := slots;
      ghost var after := ObservedAll(lower, slots, log);
      var i := 0;
      assert old(queue) + [] == old(queue);
      while i < |rules|
        invariant 0 <= i <= |rules| && rules == old(rules) && slots == before && |before| == |rules|
        invariant |queue| <= capacity
        invariant forall j | 0 <= j < i :: rules[j].AsSlot() == after[j]
        invariant forall j | i <= j < |rules| :: rules[j].AsSlot() == before[j]
        invariant queue == Offered(old(queue), capacity, EventsOf(lower, before[..i], log))
      {
        OneMoreOffered(lower, before, i, log, old(queue), capacity);
        Consult(rules[i], log);
        i := i + 1;
      }
      assert before[..i] == before;
      slots := after;
      OfferedIs(old(queue), capacity, EventsOf(lower, before, log));
    }
  }

  lemma OneMoreOffered(lower: string -> string, slots: seq<Slot>, i: nat, log: LogRecord, queue: seq<AlertEvent>, capacity: nat)
    requires i < |slots| && |queue| <= capacity
    ensures Offered(queue, capacity, EventsOf(lower, slots[..i + 1], log))
         == Offered(Offered(queue, capacity, EventsOf(lower, slots[..i], log)), capacity, Listed(EventOf(lower, slots[i], log)))
    ensures |Offered(queue, capacity, EventsOf(lower, slots[..i + 1], log))| <= capacity
  {
    assert slots[..i + 1][..i] == slots[..i];
    var events := EventsOf(lower, slots[..i], log);
    OfferedSnoc(queue, capacity, events, Listed(EventOf(lower, slots[i], log)));
    assert events + [] == events;
  }

  /** The channel takes the events in order until it is full. */
  lemma OfferedIs(queue: seq<AlertEvent>, capacity: nat, events: seq<AlertEvent>)
    requires |queue| <= capacity
    ensures var all := queue + events;
      Offered(queue, capacity, events) == if |all| <= capacity then all else all[..capacity]
  {
  }

  lemma OfferedSnoc(queue: seq<AlertEvent>, capacity: nat, events: seq<AlertEvent>, more: seq<AlertEvent>)
    requires |queue| <= capacity && |more| <= 1
    ensures Offered(queue, capacity, events + more) == Offered(Offered(queue, capacity, events), capacity, more)
    ensures |Offered(queue, capacity, events + more)| <= capacity
  {
  }
}
