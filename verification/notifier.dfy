/**
  The three notifications the bot posts to its channel: their data, the exact
  text that is sent, and decoders that recover the data from that text.
 */
module Notifier {
  import opened Wrappers
  import opened Decimal
  import opened Scan

  /** One successful reading of the game-server status API. */
  datatype Reading = Reading(players: int, maxPlayers: int, name: string)

  /** A notification, with what its text is built from. */
  datatype Message =
    | PlayerUpdate(reading: Reading)         // the regular status update
    | SpikeAlert(increase: int, count: int)  // a sudden rise in player count
    | ElderAlert(mention: string, count: int) // the low-population alert, with the role's mention

  // Literals longer than a few dozen characters are written as two parts so
  // that the verifier can see their first characters.

  // Pieces of the status update: "```css\n" + body + "\n```" around three lines.
  const UpdateHead := "```css\n**Server Name:** "
  const PlayersLabel := "\n**Players Online:** "
  const Slash := " / "
  const StatusLabel := "\n**Status:** "
  const BlockEnd := "\n```"

  // Pieces of the spike alert, inside the same css block.
  const SpikeHead := "```css\n**Player spike detected!**\n" + "**Player count jumped by "
  const SpikeMid := "** to **"
  const SpikeTail := "** in under 2 minutes!\n```"

  // The two variants of the elder alert, after the role's mention.
  const EmptyNotice := " The server is completely empty." + " Go elder to your heart\U{2019}s content."
  const BegunHead := " Elder time has begun \U{2014} only "
  const BegunTail := " players on the server." + " Perfect moment to take advantage."

  /** The status word of an update: the server counts as up exactly when someone is playing. */
  function StatusWord(players: int): (w: string)
    ensures w == "Online" <==> players > 0
    ensures w == "Online" || w == "Offline"
  {
    if players > 0 then "Online" else "Offline"
  }

  function UpdateText(r: Reading): (s: string)
    ensures StartsWith(s, UpdateHead)
  {
    var s := UpdateHead + (r.name + (PlayersLabel + UpdateFields(r)));
    assert s[..|UpdateHead|] == UpdateHead;
    s
  }

  /** The text after the players label of an update: the counts and the status line. */
  function UpdateFields(r: Reading): (s: string)
    ensures 'P' !in s
  {
    var p, m := IntToString(r.players), IntToString(r.maxPlayers);
    NoLetterInInt(r.players);
    NoLetterInInt(r.maxPlayers);
    assert 'P' !in StatusLabel && 'P' !in BlockEnd && 'P' !in StatusWord(r.players);
    p + (Slash + (m + (StatusLabel + (StatusWord(r.players) + BlockEnd))))
  }

  function SpikeText(increase: int, count: int): (s: string)
    ensures StartsWith(s, SpikeHead)
  {
    var s := SpikeHead + (IntToString(increase) + (SpikeMid + (IntToString(count) + SpikeTail)));
    assert s[..|SpikeHead|] == SpikeHead;
    s
  }

  /** The elder alert: the "completely empty" variant exactly when nobody is playing. */
  function ElderText(mention: string, count: int): (s: string)
    ensures s == mention + EmptyNotice <==> count == 0
    ensures StartsWith(s, mention)
  {
    if count == 0 then
      assert (mention + EmptyNotice)[..|mention|] == mention;
      mention + EmptyNotice
    else
      var s := mention + (BegunHead + (IntToString(count) + BegunTail));
      assert s[|mention| + 1] == BegunHead[1] != EmptyNotice[1];
      assert s[..|mention|] == mention;
      s
  }

  /** The text sent to the channel for a message: each kind opens with its own head, an elder alert with the mention. */
  function Render(m: Message): (s: string)
    ensures m.PlayerUpdate? ==> StartsWith(s, UpdateHead)
    ensures m.SpikeAlert? ==> StartsWith(s, SpikeHead)
    ensures m.ElderAlert? ==> StartsWith(s, m.mention)
  {
    match m
    case PlayerUpdate(r) => UpdateText(r)
    case SpikeAlert(increase, count) => SpikeText(increase, count)
    case ElderAlert(mention, count) => ElderText(mention, count)
  }

  function DecodeUpdate(s: string): Option<Reading> {
    var s1 :- StripPrefix(UpdateHead, s);
    // The name may hold anything, but the label cannot occur after it.
    var parts :- SplitLast(PlayersLabel, s1);
    DecodeUpdateFields(parts.0, parts.1)
  }

  /** Reads the counts and the status line that follow the players label of an update for server name. */
  function DecodeUpdateFields(name: string, s: string): Option<Reading> {
    var players :- ReadInt(s);
    var s4 :- StripPrefix(Slash, players.1);
    var maxPlayers :- ReadInt(s4);
    var s5 :- StripPrefix(StatusLabel, maxPlayers.1);
    if s5 == StatusWord(players.0) + BlockEnd then Some(Reading(players.0, maxPlayers.0, name)) else None
  }

  function DecodeSpike(s: string): Option<(int, int)> {
    var s1 :- StripPrefix(SpikeHead, s);
    var increase :- ReadInt(s1);
    var s2 :- StripPrefix(SpikeMid, increase.1);
    var count :- ReadInt(s2);
    if count.1 == SpikeTail then Some((increase.0, count.0)) else None
  }

  function DecodeElder(s: string): Option<(string, int)> {
    var (mention, s1) := SplitAt(s, ' ');
    if s1 == EmptyNotice then Some((mention, 0))
    else
      var s2 :- StripPrefix(BegunHead, s1);
      var count :- ReadInt(s2);
      if count.1 == BegunTail then Some((mention, count.0)) else None
  }

  /** Reads a channel message back into the notification it renders. */
  function Decode(s: string): Option<Message> {
    if StartsWith(s, UpdateHead) then
      var r :- DecodeUpdate(s);
      Some(PlayerUpdate(r))
    else if StartsWith(s, SpikeHead) then
      var p :- DecodeSpike(s);
      Some(SpikeAlert(p.0, p.1))
    else
      var e :- DecodeElder(s);
      Some(ElderAlert(e.0, e.1))
  }

  /** A role mention as the chat service writes it: "<@&" and the role's id, with no spaces. */
  predicate IsMention(mention: string) {
    |mention| > 0 && mention[0] == '<' && ' ' !in mention
  }

  /** Messages whose text can be read back: every update and spike alert, and elder alerts with a well-formed mention. */
  predicate Readable(m: Message) {
    match m
    case PlayerUpdate(_) => true
    case SpikeAlert(_, _) => true
    case ElderAlert(mention, _) => IsMention(mention)
  }

  /** The text of an integer holds only digits and a minus sign. */
  lemma NoLetterInInt(i: int)
    ensures 'P' !in IntToString(i)
  {
    var s := IntToString(i);
    if i < 0 {
      assert s == [s[0]] + s[1..];
    }
  }

  /**
    After the name, the players label occurs nowhere else: its line break is
    followed by "**P" only there, and no "P" follows it.
   */
  lemma LabelOnlyAfterName(name: string, rest: string)
    requires 'P' !in rest
    ensures forall j :: |name| < j ==> !OccursAt(name + PlayersLabel + rest, PlayersLabel, j)
  {
    var s := name + PlayersLabel + rest;
    forall j | |name| < j
      ensures !OccursAt(s, PlayersLabel, j)
    {
      if j + |PlayersLabel| > |s| {
      } else if j < |name| + |PlayersLabel| {
        assert s[j] == PlayersLabel[j - |name|];
        assert forall i :: 1 <= i < |PlayersLabel| ==> PlayersLabel[i] != '\n';
        assert s[j..j + |PlayersLabel|][0] != PlayersLabel[0];
      } else {
        assert s[j + 3] == rest[j + 3 - |name| - |PlayersLabel|];
        assert s[j..j + |PlayersLabel|][3] != PlayersLabel[3];
      }
    }
  }

  lemma UpdateFieldsRoundTrip(r: Reading)
    ensures DecodeUpdateFields(r.name, UpdateFields(r)) == Some(r)
  {
    var p, m, w := IntToString(r.players), IntToString(r.maxPlayers), StatusWord(r.players);
    var t5 := w + BlockEnd;
    var t4 := StatusLabel + t5;
    var t3 := m + t4;
    var t2 := Slash + t3;
    ReadIntString(r.players, t2);
    StripPrefixOf(Slash, t3);
    ReadIntString(r.maxPlayers, t4);
    StripPrefixOf(StatusLabel, t5);
  }

  /** Whatever the name holds, the decoder finds where it ends when no "P" follows the players label. */
  lemma DecodeUpdateSplit(name: string, rest: string)
    requires 'P' !in rest
    ensures DecodeUpdate(UpdateHead + (name + (PlayersLabel + rest))) == DecodeUpdateFields(name, rest)
  {
    StripPrefixOf(UpdateHead, name + (PlayersLabel + rest));
    LabelOnlyAfterName(name, rest);
    assert name + (PlayersLabel + rest) == name + PlayersLabel + rest;
    SplitLastOf(name, PlayersLabel, rest);
  }

  lemma UpdateRoundTrip(r: Reading)
    ensures DecodeUpdate(UpdateText(r)) == Some(r)
  {
    DecodeUpdateSplit(r.name, UpdateFields(r));
    UpdateFieldsRoundTrip(r);
  }

  /** The status update for ten of twenty players on server "Foo", character for character. */
  lemma UpdateTextExample()
    ensures Render(PlayerUpdate(Reading(10, 20, "Foo")))
      == "```css\n**Server Name:** Foo" + "\n**Players Online:** 10 / 20" + "\n**Status:** Online\n```"
  {
    var r := Reading(10, 20, "Foo");
    UpdateFieldsExample();
    var a := UpdateHead + "Foo";
    assert a == "```css\n**Server Name:** Foo";
    assert PlayersLabel + "10 / 20" == "\n**Players Online:** 10 / 20";
    assert UpdateText(r) == a + (PlayersLabel + "10 / 20") + "\n**Status:** Online\n```";
  }

  lemma UpdateFieldsExample()
    ensures UpdateFields(Reading(10, 20, "Foo")) == "10 / 20" + "\n**Status:** Online\n```"
  {
    assert IntToString(10) == "10" && IntToString(20) == "20";
    assert StatusLabel + ("Online" + BlockEnd) == "\n**Status:** Online\n```";
    assert "10" + (Slash + "20") == "10 / 20";
  }

  lemma SpikeRoundTrip(increase: int, count: int)
    ensures DecodeSpike(SpikeText(increase, count)) == Some((increase, count))
  {
    var i, c := IntToString(increase), IntToString(count);
    var t2 := c + SpikeTail;
    var t1 := SpikeMid + t2;
    var t0 := i + t1;
    StripPrefixOf(SpikeHead, t0);
    ReadIntString(increase, t1);
    StripPrefixOf(SpikeMid, t2);
    ReadIntString(count, SpikeTail);
  }

  lemma ElderRoundTrip(mention: string, count: int)
    requires ' ' !in mention
    ensures DecodeElder(ElderText(mention, count)) == Some((mention, count))
  {
    if count == 0 {
      SplitAtOf(mention, EmptyNotice, ' ');
    } else {
      var c := IntToString(count);
      var t1 := c + BegunTail;
      var t0 := BegunHead + t1;
      SplitAtOf(mention, t0, ' ');
      assert t0 != EmptyNotice by {
        assert t0[1] != EmptyNotice[1];
      }
      StripPrefixOf(BegunHead, t1);
      ReadIntString(count, BegunTail);
    }
  }

  lemma DecodeUpdateText(r: Reading)
    ensures Decode(UpdateText(r)) == Some(PlayerUpdate(r))
  {
    UpdateRoundTrip(r);
  }

  lemma SpikeTextIsNoUpdate(increase: int, count: int)
    ensures !StartsWith(SpikeText(increase, count), UpdateHead)
  {
    var s := SpikeText(increase, count);
    assert SpikeHead[9] == 'P' && UpdateHead[9] == 'S';
    assert s[9] == SpikeHead[9];
  }

  lemma DecodeSpikeText(increase: int, count: int)
    ensures Decode(SpikeText(increase, count)) == Some(SpikeAlert(increase, count))
  {
    SpikeRoundTrip(increase, count);
    SpikeTextIsNoUpdate(increase, count);
  }

  lemma ElderTextIsNoOther(mention: string, count: int)
    requires IsMention(mention)
    ensures !StartsWith(ElderText(mention, count), UpdateHead)
    ensures !StartsWith(ElderText(mention, count), SpikeHead)
  {
    var s := ElderText(mention, count);
    assert s[0] == '<' != UpdateHead[0];
    assert SpikeHead[0] == UpdateHead[0];
  }

  lemma DecodeElderText(mention: string, count: int)
    requires IsMention(mention)
    ensures Decode(ElderText(mention, count)) == Some(ElderAlert(mention, count))
  {
    ElderRoundTrip(mention, count);
    ElderTextIsNoOther(mention, count);
  }

  /** Every readable message is recovered from the text that is sent for it. */
  lemma DecodeRender(m: Message)
    requires Readable(m)
    ensures Decode(Render(m)) == Some(m)
  {
    match m
    case PlayerUpdate(r) => DecodeUpdateText(r);
    case SpikeAlert(increase, count) => DecodeSpikeText(increase, count);
    case ElderAlert(mention, count) => DecodeElderText(mention, count);
  }

  /** Different readable messages are never sent as the same text. */
  lemma RenderInjective(m1: Message, m2: Message)
    requires Readable(m1) && Readable(m2)
    requires Render(m1) == Render(m2)
    ensures m1 == m2
  {
    DecodeRender(m1);
    DecodeRender(m2);
  }
}
