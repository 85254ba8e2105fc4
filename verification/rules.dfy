/**
  One tick of the monitoring loop as a function of the state before it: which
  notifications go out, in which order, and what the state becomes.
 */
module Rules {
  import opened Wrappers
  import opened History
  import opened Notifier

  /** A rise of at least this many players within the window is a spike. */
  const SpikeThreshold: int := 4
  /** Fewer players than this make it elder time. */
  const ElderThreshold: int := 3
  /** Fifteen minutes, in microseconds: the cooldown of the status update and of the elder alert. */
  const Cooldown: int := 900_000_000

  /** What the loop remembers between ticks. */
  datatype State = State(history: seq<Entry>, lastRegularPing: int, lastElderAlert: Option<int>)

  /** The state of a freshly started bot: empty history, no elder alert yet, update clock at start. */
  function Initial(startTime: int): State {
    State([], startTime, None)
  }

  /** What one tick produces: the state afterwards and the messages sent, in order. */
  datatype Outcome = Outcome(state: State, sent: seq<Message>)

  /** The regular update is due when strictly more than fifteen minutes have passed since the last one. */
  predicate RegularDue(lastRegularPing: int, now: int) {
    now - lastRegularPing > Cooldown
  }

  /** The elder alert may go out when there has been none, or the last was more than fifteen minutes ago. */
  predicate ElderDue(lastElderAlert: Option<int>, now: int) {
    lastElderAlert.None? || now - lastElderAlert.value > Cooldown
  }

  /** The position of a message kind within a tick: spike, then update, then elder alert. */
  function Rank(m: Message): nat {
    match m
    case SpikeAlert(_, _) => 0
    case PlayerUpdate(_) => 1
    case ElderAlert(_, _) => 2
  }

  /** Messages in strictly increasing rank: each kind at most once, in the loop's order. */
  predicate InTickOrder(sent: seq<Message>) {
    forall i, j :: 0 <= i < j < |sent| ==> Rank(sent[i]) < Rank(sent[j])
  }

  /**
    One tick at time now. reading is the fetch result (None when the request
    failed), role the mention of the "Elder Time" role if the channel's server
    has one, sendTime the clock reading taken when the elder alert is stamped.
   */
  function Tick(s: State, now: int, reading: Option<Reading>, role: Option<string>, sendTime: int): (r: Outcome)
    // A failed fetch sends nothing and changes nothing.
    ensures reading.None? ==> r == Outcome(s, [])
  {
    match reading
    case None => Outcome(s, [])
    case Some(rd) =>
      var c := rd.players;
      var window := Admit(s.history, now, c);
      var increase := c - window[0].count;
      var spike := increase >= SpikeThreshold;
      var regular := RegularDue(s.lastRegularPing, now);
      var elder := c < ElderThreshold && ElderDue(s.lastElderAlert, now) && role.Some?;
      Outcome(
        State(
          if spike then [Entry(now, c)] else window,
          if regular then now else s.lastRegularPing,
          if elder then Some(sendTime) else s.lastElderAlert),
        SpikePart(increase, c) + RegularPart(regular, rd) + ElderPart(elder, role, c))
  }

  /** The spike rule's contribution to a tick: the alert when the rise reaches the threshold. */
  function SpikePart(increase: int, c: int): seq<Message> {
    if increase >= SpikeThreshold then [SpikeAlert(increase, c)] else []
  }

  /** The regular rule's contribution to a tick. */
  function RegularPart(regular: bool, rd: Reading): seq<Message> {
    if regular then [PlayerUpdate(rd)] else []
  }

  /** The elder rule's contribution to a tick; it only fires when the role is there to mention. */
  function ElderPart(elder: bool, role: Option<string>, c: int): seq<Message>
    requires elder ==> role.Some?
  {
    if elder then [ElderAlert(role.value, c)] else []
  }

  /** A message of a three-part tick comes from one of the parts. */
  lemma InParts(a: seq<Message>, b: seq<Message>, c: seq<Message>, m: Message)
    ensures m in a + b + c <==> m in a || m in b || m in c
  {
  }

  /** A successful tick: the new state, and its messages split into the part each rule contributes. */
  lemma TickParts(s: State, now: int, reading: Reading, role: Option<string>, sendTime: int, increase: int)
    requires increase == reading.players - Admit(s.history, now, reading.players)[0].count
    ensures var c := reading.players;
      Tick(s, now, Some(reading), role, sendTime).state == State(
        if increase >= SpikeThreshold then [Entry(now, c)] else Admit(s.history, now, c),
        if RegularDue(s.lastRegularPing, now) then now else s.lastRegularPing,
        if c < ElderThreshold && ElderDue(s.lastElderAlert, now) && role.Some? then Some(sendTime) else s.lastElderAlert)
    ensures var c := reading.players;
      Tick(s, now, Some(reading), role, sendTime).sent
        == SpikePart(increase, c)
         + RegularPart(RegularDue(s.lastRegularPing, now), reading)
         + ElderPart(c < ElderThreshold && ElderDue(s.lastElderAlert, now) && role.Some?, role, c)
  {
  }

  lemma TickSpikeSent(s: State, now: int, reading: Reading, role: Option<string>, sendTime: int, increase: int)
    requires increase == reading.players - Admit(s.history, now, reading.players)[0].count
    ensures var sent := Tick(s, now, Some(reading), role, sendTime).sent;
      && (SpikeAlert(increase, reading.players) in sent <==> increase >= SpikeThreshold)
      && (forall m :: m in sent && m.SpikeAlert? ==> m == SpikeAlert(increase, reading.players))
  {
    var c := reading.players;
    var spike := SpikePart(increase, c);
    var regular := RegularPart(RegularDue(s.lastRegularPing, now), reading);
    var elder := ElderPart(c < ElderThreshold && ElderDue(s.lastElderAlert, now) && role.Some?, role, c);
    TickParts(s, now, reading, role, sendTime, increase);
    forall m: Message | m in spike + regular + elder
      ensures m.SpikeAlert? ==> m == SpikeAlert(increase, c)
    {
      InParts(spike, regular, elder, m);
    }
    InParts(spike, regular, elder, SpikeAlert(increase, c));
  }

  /** A tick sends at most three messages, one per rule. */
  lemma TickSentBound(s: State, now: int, reading: Option<Reading>, role: Option<string>, sendTime: int)
    ensures |Tick(s, now, reading, role, sendTime).sent| <= 3
  {
    if reading.Some? {
      var c := reading.value.players;
      TickParts(s, now, reading.value, role, sendTime, c - Admit(s.history, now, c)[0].count);
    }
  }

  /** Within a tick the messages come in the order spike, update, elder alert, each kind at most once. */
  lemma TickOrder(s: State, now: int, reading: Option<Reading>, role: Option<string>, sendTime: int)
    ensures InTickOrder(Tick(s, now, reading, role, sendTime).sent)
  {
    if reading.Some? {
      var c := reading.value.players;
      TickParts(s, now, reading.value, role, sendTime, c - Admit(s.history, now, c)[0].count);
    }
  }

  /** Spike rule: measured against the oldest entry left after appending and pruning; a spike resets the history. */
  lemma TickSpikeRule(s: State, now: int, reading: Reading, role: Option<string>, sendTime: int)
    ensures var r := Tick(s, now, Some(reading), role, sendTime);
      var c := reading.players;
      var window := Admit(s.history, now, c);
      var increase := c - window[0].count;
      && (SpikeAlert(increase, c) in r.sent <==> increase >= SpikeThreshold)
      && (forall m :: m in r.sent && m.SpikeAlert? ==> m == SpikeAlert(increase, c))
      && r.state.history == (if increase >= SpikeThreshold then [Entry(now, c)] else window)
  {
    var c := reading.players;
    TickSpikeSent(s, now, reading, role, sendTime, c - Admit(s.history, now, c)[0].count);
  }

  /** Regular-update rule: strictly more than fifteen minutes since the last one, which then becomes now. */
  lemma TickRegularRule(s: State, now: int, reading: Reading, role: Option<string>, sendTime: int)
    ensures var r := Tick(s, now, Some(reading), role, sendTime);
      && (PlayerUpdate(reading) in r.sent <==> RegularDue(s.lastRegularPing, now))
      && (forall m :: m in r.sent && m.PlayerUpdate? ==> m == PlayerUpdate(reading))
      && r.state.lastRegularPing == (if RegularDue(s.lastRegularPing, now) then now else s.lastRegularPing)
  {
    var c := reading.players;
    var increase := c - Admit(s.history, now, c)[0].count;
    var spike := SpikePart(increase, c);
    var regular := RegularPart(RegularDue(s.lastRegularPing, now), reading);
    var elder := ElderPart(c < ElderThreshold && ElderDue(s.lastElderAlert, now) && role.Some?, role, c);
    TickParts(s, now, reading, role, sendTime, increase);
    forall m: Message | m in spike + regular + elder
      ensures m.PlayerUpdate? ==> m == PlayerUpdate(reading)
    {
      InParts(spike, regular, elder, m);
    }
    InParts(spike, regular, elder, PlayerUpdate(reading));
  }

  /** Elder rule: few players, cooldown over, and the role exists; the stamp changes only when the alert is sent. */
  lemma TickElderRule(s: State, now: int, reading: Reading, role: Option<string>, sendTime: int)
    ensures var r := Tick(s, now, Some(reading), role, sendTime);
      var c := reading.players;
      var elder := c < ElderThreshold && ElderDue(s.lastElderAlert, now) && role.Some?;
      && (elder ==> ElderAlert(role.value, c) in r.sent && r.state.lastElderAlert == Some(sendTime))
      && (!elder ==> r.state.lastElderAlert == s.lastElderAlert)
      && (forall m :: m in r.sent && m.ElderAlert? ==> elder && m == ElderAlert(role.value, c))
  {
    var c := reading.players;
    var due := c < ElderThreshold && ElderDue(s.lastElderAlert, now) && role.Some?;
    var increase := c - Admit(s.history, now, c)[0].count;
    var spike := SpikePart(increase, c);
    var regular := RegularPart(RegularDue(s.lastRegularPing, now), reading);
    var elder := ElderPart(due, role, c);
    TickParts(s, now, reading, role, sendTime, increase);
    forall m: Message | m in spike + regular + elder
      ensures m.ElderAlert? ==> due && m == ElderAlert(role.value, c)
    {
      InParts(spike, regular, elder, m);
    }
    if due {
      InParts(spike, regular, elder, ElderAlert(role.value, c));
    }
  }

  /** After a successful reading every history entry lies in the two-minute window and the last one is that reading. */
  lemma TickWindow(s: State, now: int, reading: Reading, role: Option<string>, sendTime: int)
    ensures var h := Tick(s, now, Some(reading), role, sendTime).state.history;
      && h != [] && h[|h| - 1] == Entry(now, reading.players)
      && (forall e :: e in h ==> InWindow(e, now))
  {
  }

  /** A tick adds no entry to the history other than its own reading. */
  lemma TickHistoryFrom(s: State, now: int, reading: Option<Reading>, role: Option<string>, sendTime: int)
    ensures forall e :: e in Tick(s, now, reading, role, sendTime).state.history ==>
      e in s.history || (reading.Some? && e == Entry(now, reading.value.players))
  {
    if reading.Some? {
      TickSpikeRule(s, now, reading.value, role, sendTime);
    }
  }

  /**
    A spike alert reports the current count and its rise over an entry that was
    in the history (or is the current reading) and lies in the window.
   */
  lemma TickSpikeFrom(s: State, now: int, reading: Reading, role: Option<string>, sendTime: int)
    ensures forall m :: m in Tick(s, now, Some(reading), role, sendTime).sent && m.SpikeAlert? ==>
      && m.count == reading.players
      && m.increase >= SpikeThreshold
      && exists o :: (o in s.history || o == Entry(now, reading.players)) && InWindow(o, now)
           && m.increase == reading.players - o.count
  {
    TickSpikeRule(s, now, reading, role, sendTime);
    var window := Admit(s.history, now, reading.players);
    assert window[0] in window;
  }

  /** When nothing in the history lies in the window any more, the oldest entry is the current reading and no spike fires. */
  lemma TickNoSpikeWhenStale(s: State, now: int, reading: Option<Reading>, role: Option<string>, sendTime: int)
    requires forall e :: e in s.history ==> !InWindow(e, now)
    ensures forall m :: m in Tick(s, now, reading, role, sendTime).sent ==> !m.SpikeAlert?
  {
    if reading.Some? {
      TickSpikeFrom(s, now, reading.value, role, sendTime);
    }
  }

  /** The first reading has nothing to compare with: no spike, and the history holds just that reading. */
  lemma FirstReadingNoSpike(s: State, now: int, reading: Reading, role: Option<string>, sendTime: int)
    requires s.history == []
    ensures var r := Tick(s, now, Some(reading), role, sendTime);
      && (forall m :: m in r.sent ==> !m.SpikeAlert?)
      && r.state.history == [Entry(now, reading.players)]
  {
    assert Admit([], now, reading.players) == [Entry(now, reading.players)];
  }

  /** Repeating a tick at the same time with the same reading sends nothing: every rule has just been satisfied. */
  lemma NoImmediateRepeat(s: State, now: int, reading: Reading, role: Option<string>, sendTime: int)
    requires now <= sendTime
    ensures var r1 := Tick(s, now, Some(reading), role, sendTime);
      Tick(r1.state, now, Some(reading), role, sendTime).sent == []
  {
  }

  // Worked cases. Times are microseconds; t0 is any start time.

  /** Ten players, then fifteen a minute later: a spike of five, and the history restarts at the new reading. */
  lemma ScenarioSpike(t0: int, ping: int, elder: Option<int>, role: Option<string>, sendTime: int)
    ensures var r := Tick(State([Entry(t0, 10)], ping, elder), t0 + 60_000_000, Some(Reading(15, 20, "Foo")), role, sendTime);
      && SpikeAlert(5, 15) in r.sent
      && r.state.history == [Entry(t0 + 60_000_000, 15)]
  {
    TickSpikeRule(State([Entry(t0, 10)], ping, elder), t0 + 60_000_000, Reading(15, 20, "Foo"), role, sendTime);
  }

  /** Sixteen minutes after the last update, with ten of twenty players: an update reporting the server online, in this exact text. */
  lemma ScenarioRegularUpdate(t0: int, history: seq<Entry>, elder: Option<int>, role: Option<string>, sendTime: int)
    ensures var r := Tick(State(history, t0, elder), t0 + 960_000_000, Some(Reading(10, 20, "Foo")), role, sendTime);
      && PlayerUpdate(Reading(10, 20, "Foo")) in r.sent
      && r.state.lastRegularPing == t0 + 960_000_000
      && Render(PlayerUpdate(Reading(10, 20, "Foo")))
           == "```css\n**Server Name:** Foo" + "\n**Players Online:** 10 / 20" + "\n**Status:** Online\n```"
  {
    TickRegularRule(State(history, t0, elder), t0 + 960_000_000, Reading(10, 20, "Foo"), role, sendTime);
    UpdateTextExample();
  }

  /** An empty server and no elder alert so far: the "completely empty" alert, stamped with its send time. */
  lemma ScenarioEmptyServer(s: State, now: int, mention: string, sendTime: int)
    requires s.lastElderAlert.None?
    ensures var r := Tick(s, now, Some(Reading(0, 20, "Foo")), Some(mention), sendTime);
      && ElderAlert(mention, 0) in r.sent
      && Render(ElderAlert(mention, 0)) == mention + EmptyNotice
      && r.state.lastElderAlert == Some(sendTime)
  {
    TickElderRule(s, now, Reading(0, 20, "Foo"), Some(mention), sendTime);
  }
}
