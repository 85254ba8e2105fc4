/**
  The monitoring loop itself: the bot's mutable state, one tick that updates it
  in place, a finite run of ticks, and what holds over any run.
 */
module Scheduler {
  import opened Wrappers
  import opened History
  import opened Notifier
  import opened Rules

  /** Everything one tick takes from the outside world. */
  datatype Input = Input(now: int, reading: Option<Reading>, role: Option<string>, sendTime: int)

  /** A message together with the loop time of the tick that sent it. */
  datatype Sent = Sent(time: int, message: Message)

  /** The state after a run of ticks and everything sent during it. */
  datatype Trace = Trace(state: State, log: seq<Sent>)

  function Stamp(now: int, sent: seq<Message>): (r: seq<Sent>)
    ensures |r| == |sent|
    ensures forall i :: 0 <= i < |r| ==> r[i] == Sent(now, sent[i])
  {
    seq(|sent|, i requires 0 <= i < |sent| => Sent(now, sent[i]))
  }

  /** The ticks of ins, one after another, from state s. */
  function Run(s: State, ins: seq<Input>): Trace
    decreases |ins|
  {
    if ins == [] then Trace(s, [])
    else
      var prev := Run(s, ins[..|ins| - 1]);
      var x := ins[|ins| - 1];
      var o := Tick(prev.state, x.now, x.reading, x.role, x.sendTime);
      Trace(o.state, prev.log + Stamp(x.now, o.sent))
  }

  /** A run posts at most three messages per tick. */
  lemma {:induction false} RunLogBound(s: State, ins: seq<Input>)
    ensures |Run(s, ins).log| <= 3 * |ins|
    decreases |ins|
  {
    if ins != [] {
      var prefix := ins[..|ins| - 1];
      RunLogBound(s, prefix);
      var x := ins[|ins| - 1];
      TickSentBound(Run(s, prefix).state, x.now, x.reading, x.role, x.sendTime);
    }
  }

  /** Every reading a run of ticks obtained, as a history entry. */
  function Observed(ins: seq<Input>): set<Entry> {
    set k | 0 <= k < |ins| && ins[k].reading.Some? :: Entry(ins[k].now, ins[k].reading.value.players)
  }

  /** Loop times never go backwards and none is before t0. */
  predicate ClockFrom(t0: int, ins: seq<Input>) {
    && (forall k :: 0 <= k < |ins| ==> t0 <= ins[k].now)
    && (forall i, j :: 0 <= i < j < |ins| ==> ins[i].now <= ins[j].now)
  }

  /** The loop time of the last tick of a run (t0 for no tick). */
  function LastTime(t0: int, ins: seq<Input>): int {
    if ins == [] then t0 else ins[|ins| - 1].now
  }

  /** A history in time order with nothing later than t. */
  predicate Settled(h: seq<Entry>, t: int) {
    Chronological(h) && forall e :: e in h ==> e.time <= t
  }

  /** A tick at a time no earlier than t keeps the history in time order and not ahead of the clock. */
  lemma TickKeepsSettled(s: State, t: int, now: int, reading: Option<Reading>, role: Option<string>, sendTime: int)
    requires Settled(s.history, t) && t <= now
    ensures Settled(Tick(s, now, reading, role, sendTime).state.history, now)
  {
    if reading.Some? {
      var h := s.history + [Entry(now, reading.value.players)];
      assert Chronological(h) by {
        forall i, j | 0 <= i < j < |h|
          ensures h[i].time <= h[j].time
        {
          assert h[i] in s.history || j < |s.history|;
        }
      }
      PruneChronological(h, now);
      TickSpikeRule(s, now, reading.value, role, sendTime);
    }
  }

  /** Over any run whose clock does not go backwards, the history stays in time order and never ahead of the clock. */
  lemma {:induction false} RunKeepsSettled(s: State, t0: int, ins: seq<Input>)
    requires Settled(s.history, t0) && ClockFrom(t0, ins)
    ensures Settled(Run(s, ins).state.history, LastTime(t0, ins))
    decreases |ins|
  {
    if ins != [] {
      var prefix := ins[..|ins| - 1];
      assert ClockFrom(t0, prefix);
      RunKeepsSettled(s, t0, prefix);
      var x := ins[|ins| - 1];
      assert LastTime(t0, prefix) <= x.now;
      TickKeepsSettled(Run(s, prefix).state, LastTime(t0, prefix), x.now, x.reading, x.role, x.sendTime);
    }
  }

  /** Any two status updates of a run are more than fifteen minutes apart. */
  lemma {:induction false} RegularUpdatesSpaced(s: State, ins: seq<Input>)
    ensures var t := Run(s, ins);
      && (forall e :: e in t.log && e.message.PlayerUpdate? ==> e.time <= t.state.lastRegularPing)
      && (forall i, j :: 0 <= i < j < |t.log| && t.log[i].message.PlayerUpdate? && t.log[j].message.PlayerUpdate?
            ==> t.log[j].time - t.log[i].time > Cooldown)
    decreases |ins|
  {
    if ins != [] {
      var prefix := ins[..|ins| - 1];
      RegularUpdatesSpaced(s, prefix);
      var prev := Run(s, prefix);
      var x := ins[|ins| - 1];
      var o := Tick(prev.state, x.now, x.reading, x.role, x.sendTime);
      var added := Stamp(x.now, o.sent);
      var t := Run(s, ins);
      assert t.log == prev.log + added;
      if x.reading.Some? {
        TickRegularRule(prev.state, x.now, x.reading.value, x.role, x.sendTime);
      }
      TickOrder(prev.state, x.now, x.reading, x.role, x.sendTime);
      forall e | e in added && e.message.PlayerUpdate?
        ensures e.time == x.now && RegularDue(prev.state.lastRegularPing, x.now)
        ensures t.state.lastRegularPing == x.now
      {
        var k :| 0 <= k < |added| && added[k] == e;
        assert o.sent[k] in o.sent;
      }
      forall i, j | 0 <= i < j < |t.log| && t.log[i].message.PlayerUpdate? && t.log[j].message.PlayerUpdate?
        ensures t.log[j].time - t.log[i].time > Cooldown
      {
        if j >= |prev.log| {
          assert t.log[j] in added;
          if i < |prev.log| {
            assert t.log[i] in prev.log;
          }
        }
      }
    }
  }

  /** Every elder alert of log was sent no later than the stamp. */
  predicate ElderBefore(log: seq<Sent>, stamp: Option<int>) {
    forall e :: e in log && e.message.ElderAlert? ==> stamp.Some? && e.time <= stamp.value
  }

  /** Any two elder alerts of log are more than fifteen minutes apart. */
  predicate ElderSpaced(log: seq<Sent>) {
    forall i, j :: 0 <= i < j < |log| && log[i].message.ElderAlert? && log[j].message.ElderAlert?
      ==> log[j].time - log[i].time > Cooldown
  }

  /** What one tick at loop time now contributes to the elder alerts of a log, and to the stamp. */
  predicate ElderTickShape(stamp: Option<int>, added: seq<Sent>, stamp': Option<int>, now: int) {
    && (forall e :: e in added && e.message.ElderAlert? ==> e.time == now && ElderDue(stamp, now))
    && (forall i, j :: 0 <= i < j < |added| ==> !(added[i].message.ElderAlert? && added[j].message.ElderAlert?))
    && (stamp' == stamp || (ElderDue(stamp, now) && stamp'.Some? && now <= stamp'.value))
    && (forall e :: e in added && e.message.ElderAlert? ==> stamp' != stamp)
  }

  /** A tick whose elder part has that shape keeps the elder alerts spaced and behind the stamp. */
  lemma ElderLogStep(log: seq<Sent>, stamp: Option<int>, added: seq<Sent>, stamp': Option<int>, now: int)
    requires ElderBefore(log, stamp) && ElderSpaced(log)
    requires ElderTickShape(stamp, added, stamp', now)
    ensures ElderBefore(log + added, stamp') && ElderSpaced(log + added)
  {
    var t := log + added;
    forall i, j | 0 <= i < j < |t| && t[i].message.ElderAlert? && t[j].message.ElderAlert?
      ensures t[j].time - t[i].time > Cooldown
    {
      if j >= |log| {
        assert t[j] == added[j - |log|];
        assert t[j] in added;
        if i < |log| {
          assert t[i] in log;
        }
      }
    }
  }

  /** The elder part of one tick of a run has the shape ElderLogStep needs, when the stamp is no earlier than the tick. */
  lemma TickElderShape(st: State, x: Input)
    requires x.now <= x.sendTime
    ensures var o := Tick(st, x.now, x.reading, x.role, x.sendTime);
      ElderTickShape(st.lastElderAlert, Stamp(x.now, o.sent), o.state.lastElderAlert, x.now)
  {
    var o := Tick(st, x.now, x.reading, x.role, x.sendTime);
    var added := Stamp(x.now, o.sent);
    if x.reading.Some? {
      TickElderRule(st, x.now, x.reading.value, x.role, x.sendTime);
    }
    TickOrder(st, x.now, x.reading, x.role, x.sendTime);
    forall e | e in added && e.message.ElderAlert?
      ensures e.time == x.now && ElderDue(st.lastElderAlert, x.now)
      ensures o.state.lastElderAlert != st.lastElderAlert
    {
      var k :| 0 <= k < |added| && added[k] == e;
      assert o.sent[k] in o.sent;
    }
  }

  /**
    Any two elder alerts of a run are more than fifteen minutes apart, when each
    alert is stamped no earlier than the tick that sent it.
   */
  lemma {:induction false} ElderAlertsSpaced(s: State, ins: seq<Input>)
    requires forall k :: 0 <= k < |ins| ==> ins[k].now <= ins[k].sendTime
    ensures var t := Run(s, ins);
      && (forall e :: e in t.log && e.message.ElderAlert? ==>
            t.state.lastElderAlert.Some? && e.time <= t.state.lastElderAlert.value)
      && (forall i, j :: 0 <= i < j < |t.log| && t.log[i].message.ElderAlert? && t.log[j].message.ElderAlert?
            ==> t.log[j].time - t.log[i].time > Cooldown)
    decreases |ins|
  {
    if ins != [] {
      var prefix := ins[..|ins| - 1];
      ElderAlertsSpaced(s, prefix);
      var prev := Run(s, prefix);
      var x := ins[|ins| - 1];
      var o := Tick(prev.state, x.now, x.reading, x.role, x.sendTime);
      TickElderShape(prev.state, x);
      ElderLogStep(prev.log, prev.state.lastElderAlert, Stamp(x.now, o.sent), o.state.lastElderAlert, x.now);
    }
  }

  /** Every reading a prefix of a run obtained is a reading of the run. */
  lemma ObservedPrefix(ins: seq<Input>, n: nat)
    requires n <= |ins|
    ensures Observed(ins[..n]) <= Observed(ins)
  {
    forall e | e in Observed(ins[..n])
      ensures e in Observed(ins)
    {
      var k :| 0 <= k < n && ins[..n][k].reading.Some? && e == Entry(ins[..n][k].now, ins[..n][k].reading.value.players);
      assert ins[k] == ins[..n][k];
    }
  }

  /** From an empty history, every history entry is a reading the run obtained. */
  lemma {:induction false} RunHistoryObserved(s: State, ins: seq<Input>)
    requires s.history == []
    ensures forall e :: e in Run(s, ins).state.history ==> e in Observed(ins)
    decreases |ins|
  {
    if ins != [] {
      var prefix := ins[..|ins| - 1];
      var x := ins[|ins| - 1];
      RunHistoryObserved(s, prefix);
      ObservedPrefix(ins, |ins| - 1);
      TickHistoryFrom(Run(s, prefix).state, x.now, x.reading, x.role, x.sendTime);
      assert x.reading.Some? ==> Entry(x.now, x.reading.value.players) in Observed(ins);
    }
  }

  /** What a spike alert sent at time now says about a set of readings that holds the history and the current reading. */
  predicate SpikeFromReadings(m: Message, now: int, obs: set<Entry>)
    requires m.SpikeAlert?
  {
    && m.increase >= SpikeThreshold
    && Entry(now, m.count) in obs
    && exists o :: o in obs && o.time <= now && now - o.time <= WindowSpan && m.increase == m.count - o.count
  }

  /** Every spike alert of log rises over a reading of obs. */
  predicate SpikesObserved(log: seq<Sent>, obs: set<Entry>) {
    forall e :: e in log && e.message.SpikeAlert? ==> SpikeFromReadings(e.message, e.time, obs)
  }

  /** A tick's spike alert rises over a reading of obs, when obs holds the history (none of it later than now) and the current reading. */
  lemma TickSpikeObserved(s: State, x: Input, obs: set<Entry>)
    requires forall e :: e in s.history ==> e in obs && e.time <= x.now
    requires x.reading.Some? ==> Entry(x.now, x.reading.value.players) in obs
    ensures SpikesObserved(Stamp(x.now, Tick(s, x.now, x.reading, x.role, x.sendTime).sent), obs)
  {
    var sent := Tick(s, x.now, x.reading, x.role, x.sendTime).sent;
    if x.reading.Some? {
      TickSpikeFrom(s, x.now, x.reading.value, x.role, x.sendTime);
    }
    StampSpikes(x.now, sent, obs);
  }

  /** Stamping messages with their tick's time keeps what their spike alerts say about obs. */
  lemma StampSpikes(now: int, sent: seq<Message>, obs: set<Entry>)
    requires forall m :: m in sent && m.SpikeAlert? ==> SpikeFromReadings(m, now, obs)
    ensures SpikesObserved(Stamp(now, sent), obs)
  {
    var added := Stamp(now, sent);
    forall e | e in added && e.message.SpikeAlert?
      ensures SpikeFromReadings(e.message, e.time, obs)
    {
      var k :| 0 <= k < |added| && added[k] == e;
      assert sent[k] in sent;
    }
  }

  /** More readings leave every spike alert observed. */
  lemma SpikesObservedMore(log: seq<Sent>, obs: set<Entry>, obs': set<Entry>)
    requires SpikesObserved(log, obs) && obs <= obs'
    ensures SpikesObserved(log, obs')
  {
    forall e | e in log && e.message.SpikeAlert?
      ensures SpikeFromReadings(e.message, e.time, obs')
    {
      var m := e.message;
      var o :| o in obs && o.time <= e.time && e.time - o.time <= WindowSpan && m.increase == m.count - o.count;
      assert o in obs';
    }
  }

  /** From a fresh start with a clock that does not go backwards, every spike alert of a run rises over a reading of the run. */
  lemma {:induction false} RunSpikesObserved(s: State, ins: seq<Input>)
    requires s.history == [] && |ins| > 0 && ClockFrom(ins[0].now, ins)
    ensures SpikesObserved(Run(s, ins).log, Observed(ins))
    decreases |ins|
  {
    var prefix := ins[..|ins| - 1];
    var x := ins[|ins| - 1];
    var prev := Run(s, prefix);
    ObservedPrefix(ins, |ins| - 1);
    if prefix != [] {
      assert ClockFrom(prefix[0].now, prefix);
      RunSpikesObserved(s, prefix);
      SpikesObservedMore(prev.log, Observed(prefix), Observed(ins));
      RunKeepsSettled(s, prefix[0].now, prefix);
      assert LastTime(prefix[0].now, prefix) <= x.now;
    }
    RunHistoryObserved(s, prefix);
    assert x.reading.Some? ==> Entry(x.now, x.reading.value.players) in Observed(ins) by {
      assert ins[|ins| - 1] == x;
    }
    TickSpikeObserved(prev.state, x, Observed(ins));
    var added := Stamp(x.now, Tick(prev.state, x.now, x.reading, x.role, x.sendTime).sent);
    assert Run(s, ins).log == prev.log + added;
  }

  /**
    From a fresh start, every spike alert reports the reading of its own tick
    and its rise over a reading taken at most two minutes earlier.
   */
  lemma SpikesMeasureObservedRise(s: State, ins: seq<Input>)
    requires s.history == [] && |ins| > 0 && ClockFrom(ins[0].now, ins)
    ensures forall e :: e in Run(s, ins).log && e.message.SpikeAlert? ==>
      && e.message.increase >= SpikeThreshold
      && Entry(e.time, e.message.count) in Observed(ins)
      && exists o :: o in Observed(ins) && o.time <= e.time && e.time - o.time <= WindowSpan
           && e.message.increase == e.message.count - o.count
  {
    RunSpikesObserved(s, ins);
  }

  /** From a fresh start with a clock that does not go backwards, a run in which no reading exceeds one at most two minutes older by four or more sends no spike alert. */
  lemma NoSpikeWithoutRise(s: State, ins: seq<Input>)
    requires s.history == [] && |ins| > 0 && ClockFrom(ins[0].now, ins)
    requires forall o1, o2 :: o1 in Observed(ins) && o2 in Observed(ins) && o1.time <= o2.time <= o1.time + WindowSpan
               ==> o2.count - o1.count < SpikeThreshold
    ensures forall e :: e in Run(s, ins).log ==> !e.message.SpikeAlert?
  {
    SpikesMeasureObservedRise(s, ins);
  }

  /**
    Starting from an empty history, when every two ticks of a run are more than two minutes apart, as the loop's
    two-minute sleep makes them, the history never holds an earlier reading at
    the spike check, so no spike alert is ever sent.
   */
  lemma {:induction false} NoSpikeAtLoopCadence(s: State, ins: seq<Input>)
    requires s.history == []
    requires forall i, j :: 0 <= i < j < |ins| ==> ins[j].now - ins[i].now > WindowSpan
    ensures forall e :: e in Run(s, ins).log ==> !e.message.SpikeAlert?
    decreases |ins|
  {
    if ins != [] {
      var prefix := ins[..|ins| - 1];
      var x := ins[|ins| - 1];
      var prev := Run(s, prefix);
      NoSpikeAtLoopCadence(s, prefix);
      if prefix != [] {
        assert ClockFrom(prefix[0].now, prefix);
        RunKeepsSettled(s, prefix[0].now, prefix);
        assert x.now - LastTime(prefix[0].now, prefix) > WindowSpan;
      }
      TickNoSpikeWhenStale(prev.state, x.now, x.reading, x.role, x.sendTime);
      var o := Tick(prev.state, x.now, x.reading, x.role, x.sendTime);
      var added := Stamp(x.now, o.sent);
      assert Run(s, ins).log == prev.log + added;
      forall e | e in added
        ensures e.message in o.sent
      {
        var k :| 0 <= k < |added| && added[k] == e;
      }
    }
  }

  /** A run in which every fetch fails sends nothing and leaves the state as it was. */
  lemma {:induction false} FailedFetchesChangeNothing(s: State, ins: seq<Input>)
    requires forall k :: 0 <= k < |ins| ==> ins[k].reading.None?
    ensures Run(s, ins) == Trace(s, [])
    decreases |ins|
  {
    if ins != [] {
      FailedFetchesChangeNothing(s, ins[..|ins| - 1]);
    }
  }

  /** The bot's global state, updated in place by each tick. */
  class Monitor {
    var history: seq<Entry>
    var lastRegularPing: int
    var lastElderAlert: Option<int>

    function Snapshot(): State
      reads this
    {
      State(history, lastRegularPing, lastElderAlert)
    }

    /** The state at process start: no history, no elder alert, the update clock set to the start time. */
    constructor (startTime: int)
      ensures Snapshot() == Initial(startTime)
    {
      history := [];
      lastRegularPing := startTime;
      lastElderAlert := None;
    }

    /** Sends the elder alert if the role exists, and only then stamps it with sendTime. */
    method SendElderAlert(currentCount: int, role: Option<string>, sendTime: int) returns (sent: seq<Message>)
      modifies this`lastElderAlert
      ensures role.Some? ==> sent == [ElderAlert(role.value, currentCount)] && lastElderAlert == Some(sendTime)
      ensures role.None? ==> sent == [] && lastElderAlert == old(lastElderAlert)
    {
      sent := [];
      if role.Some? {
        sent := [ElderAlert(role.value, currentCount)];
        lastElderAlert := Some(sendTime);
      }
    }

    /**
      The spike check of the loop body: record the reading, drop what left the
      two-minute window, and compare with the oldest entry left; a spike resets
      the history to the current reading.
     */
    method CheckSpike(now: int, currentCount: int) returns (sent: seq<Message>)
      modifies this`history
      ensures var window := Admit(old(history), now, currentCount);
        var increase := currentCount - window[0].count;
        && sent == SpikePart(increase, currentCount)
        && history == if increase >= SpikeThreshold then [Entry(now, currentCount)] else window
    {
      sent := [];
      history := history + [Entry(now, currentCount)];
      history := Prune(history, now);
      if history != [] {
        var oldest := history[0];
        if currentCount - oldest.count >= SpikeThreshold {
          sent := [SpikeAlert(currentCount - oldest.count, currentCount)];
          history := [Entry(now, currentCount)];
        }
      }
    }

    /** One pass of the loop body: the messages it sends, in order, and the new state, as Tick specifies. */
    method Step(now: int, reading: Option<Reading>, role: Option<string>, sendTime: int) returns (sent: seq<Message>)
      modifies this
      ensures Outcome(Snapshot(), sent) == Tick(old(Snapshot()), now, reading, role, sendTime)
    {
      ghost var before := Snapshot();
      sent := [];
      if reading.Some? {
        var currentCount := reading.value.players;
        ghost var increase := currentCount - Admit(before.history, now, currentCount)[0].count;
        sent := CheckSpike(now, currentCount);
        ghost var spike := sent;
        if now - lastRegularPing > Cooldown {
          sent := sent + [PlayerUpdate(reading.value)];
          lastRegularPing := now;
        }
        ghost var regular := RegularPart(RegularDue(before.lastRegularPing, now), reading.value);
        assert sent == spike + regular;
        ghost var due := currentCount < ElderThreshold && ElderDue(before.lastElderAlert, now) && role.Some?;
        if currentCount < ElderThreshold {
          if lastElderAlert.None? || now - lastElderAlert.value > Cooldown {
            var alert := SendElderAlert(currentCount, role, sendTime);
            sent := sent + alert;
          }
        }
        assert sent == spike + regular + ElderPart(due, role, currentCount);
        TickParts(before, now, reading.value, role, sendTime, increase);
      }
    }

    /** The loop over a finite run of ticks: everything it sends, stamped with each tick's time. */
    method Poll(ins: seq<Input>) returns (log: seq<Sent>)
      modifies this
      ensures Trace(Snapshot(), log) == Run(old(Snapshot()), ins)
    {
      log := [];
      ghost var start := Snapshot();
      for i := 0 to |ins|
        invariant Trace(Snapshot(), log) == Run(start, ins[..i])
      {
        var x := ins[i];
        var sent := Step(x.now, x.reading, x.role, x.sendTime);
        assert ins[..i + 1][..i] == ins[..i];
        log := log + Stamp(x.now, sent);
      }
      assert ins[..|ins|] == ins;
    }
  }
}
