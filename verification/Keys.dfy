/** The strings used as identities: event IDs, JetStream message IDs and room IDs. */
module Keys {
  import opened Common

  // ---------- decimal printing (the %d verb) ----------

  function Digit(d: nat): char
    requires d < 10
  {
    "0123456789"[d]
  }

  predicate IsDigit(c: char) { '0' <= c <= '9' }

  function PrintNat(n: nat): (s: string)
    ensures |s| > 0 && forall i :: 0 <= i < |s| ==> IsDigit(s[i])
    ensures s[0] == '0' ==> n == 0 && s == "0"
  {
    if n < 10 then [Digit(n)] else PrintNat(n / 10) + [Digit(n % 10)]
  }

  function PrintInt(n: int): (s: string)
    ensures |s| > 0 && forall i :: 1 <= i < |s| ==> IsDigit(s[i])
    ensures IsDigit(s[0]) <==> n >= 0
  {
    if n < 0 then ['-'] + PrintNat(-n) else PrintNat(n)
  }

  function ParseNat(s: string): int {
    if |s| == 0 then 0 else 10 * ParseNat(s[..|s| - 1]) + (s[|s| - 1] as int - '0' as int)
  }

  lemma {:induction false} ParseInvertsPrint(n: nat)
    ensures ParseNat(PrintNat(n)) == n
  {
    if n >= 10 {
      ParseInvertsPrint(n / 10);
      assert PrintNat(n)[..|PrintNat(n)| - 1] == PrintNat(n / 10);
    }
  }

  lemma PrintNatInjective(m: nat, n: nat)
    requires PrintNat(m) == PrintNat(n)
    ensures m == n
  {
    ParseInvertsPrint(m);
    ParseInvertsPrint(n);
  }

  lemma PrintIntInjective(m: int, n: int)
    requires PrintInt(m) == PrintInt(n)
    ensures m == n
  {
    if m < 0 {
      assert PrintNat(-m) == PrintInt(m)[1..] == PrintInt(n)[1..] == PrintNat(-n);
      PrintNatInjective(-m, -n);
    } else {
      PrintNatInjective(m, n);
    }
  }

  /** If two texts agree, each made of a part without the separator (after index `from`), the separator and a rest,
      then the parts agree. */
  lemma SplitAtSeparator(a: string, b: string, c: string, d: string, separator: char, from: nat)
    requires from <= |a| && from <= |c|
    requires forall i :: from <= i < |a| ==> a[i] != separator
    requires forall i :: from <= i < |c| ==> c[i] != separator
    requires a + [separator] + b == c + [separator] + d
    ensures a == c && b == d
  {
    var whole := a + [separator] + b;
    assert whole[|a|] == separator && whole[|c|] == separator;
    assert forall i :: from <= i < |a| ==> whole[i] == a[i];
    assert forall i :: from <= i < |c| ==> whole[i] == c[i];
    assert a == whole[..|a|] && c == whole[..|c|];
    assert b == whole[|a| + 1..] && d == whole[|c| + 1..];
  }

  // ---------- room IDs ----------

  datatype TeamMember = TeamMember(cellId: int, team: int)
  datatype Session = Session(gameId: int, localCellId: int, myTeam: seq<TeamMember>)

  function RoomId(gameId: int, team: int): string {
    PrintInt(gameId) + ['-'] + PrintInt(team)
  }

  predicate FirstInCell(team: seq<TeamMember>, cell: int, k: nat) {
    k < |team| && team[k].cellId == cell && forall j :: 0 <= j < k ==> team[j].cellId != cell
  }

  /** The first member in the local player's cell decides the team; without one it is zero. */
  function LocalTeam(team: seq<TeamMember>, cell: int): (local: int)
    ensures forall k: nat :: FirstInCell(team, cell, k) ==> local == team[k].team
    ensures (forall k :: 0 <= k < |team| ==> team[k].cellId != cell) ==> local == 0
  {
    if team == [] then 0
    else if team[0].cellId == cell then team[0].team
    else
      assert forall k: nat :: FirstInCell(team, cell, k) ==> k > 0 && FirstInCell(team[1..], cell, k - 1);
      LocalTeam(team[1..], cell)
  }

  /** A room ID needs a session, a game and a member in the local cell whose team is known; it names both. */
  method BuildRoomId(session: Option<Session>) returns (id: string)
    ensures id != "" <==>
              && session.Some? && session.value.gameId != 0
              && exists k: nat :: FirstInCell(session.value.myTeam, session.value.localCellId, k)
                                  && session.value.myTeam[k].team != 0
    ensures id != "" ==>
              forall k: nat :: FirstInCell(session.value.myTeam, session.value.localCellId, k) ==>
                                 id == PrintInt(session.value.gameId) + "-" + PrintInt(session.value.myTeam[k].team)
    ensures id == match session
                  case None => ""
                  case Some(s) =>
                    var team := LocalTeam(s.myTeam, s.localCellId);
                    if s.gameId == 0 || team == 0 then "" else RoomId(s.gameId, team)
  {
    if session.None? {
      return "";
    }
    var s := session.value;
    var team := 0;
    var i := 0;
    while i < |s.myTeam|
      invariant 0 <= i <= |s.myTeam|
      invariant team == 0
      invariant LocalTeam(s.myTeam, s.localCellId) == LocalTeam(s.myTeam[i..], s.localCellId)
    {
      if s.myTeam[i].cellId == s.localCellId {
        team := s.myTeam[i].team;
        break;
      }
      i := i + 1;
    }
    SomeoneIsFirst(s.myTeam, s.localCellId);
    if s.gameId == 0 || team == 0 {
      return "";
    }
    return RoomId(s.gameId, team);
  }

  lemma {:induction false} SomeoneIsFirst(team: seq<TeamMember>, cell: int)
    ensures (exists k: nat :: FirstInCell(team, cell, k)) <==> exists k :: 0 <= k < |team| && team[k].cellId == cell
  {
    if team != [] {
      var n := |team| - 1;
      SomeoneIsFirst(team[..n], cell);
      if k: nat :| FirstInCell(team[..n], cell, k) {
        assert FirstInCell(team, cell, k);
      } else if team[n].cellId == cell {
        assert forall j :: 0 <= j < n ==> team[..n][j] == team[j];
        assert FirstInCell(team, cell, n);
      }
    }
  }

  /** Two games or two teams never share a room, negative numbers included, and no room ID is empty. */
  lemma RoomIdInjective(game: int, team: int, game': int, team': int)
    ensures RoomId(game, team) == RoomId(game', team') <==> game == game' && team == team'
    ensures RoomId(game, team) != ""
  {
    if RoomId(game, team) == RoomId(game', team') {
      SplitAtSeparator(PrintInt(game), PrintInt(team), PrintInt(game'), PrintInt(team'), '-', 1);
      PrintIntInjective(game, game');
      PrintIntInjective(team, team');
    }
  }

  // ---------- dead-letter and replay message IDs ----------

  function DeadLetterMessageId(stream: string, sequence: nat, consumer: string): string {
    stream + [':'] + (PrintNat(sequence) + [':'] + consumer)
  }

  const REPLAY_PREFIX := "dlq-replay:"

  function ReplayMessageId(recordId: string, sequence: nat): string {
    REPLAY_PREFIX + (recordId + [':'] + PrintNat(sequence))
  }

  /** One record per source message and consumer, provided stream names hold no colon. */
  lemma DeadLetterMessageIdInjective(stream: string, sequence: nat, consumer: string,
                                     stream': string, sequence': nat, consumer': string)
    requires ':' !in stream && ':' !in stream'
    ensures DeadLetterMessageId(stream, sequence, consumer) == DeadLetterMessageId(stream', sequence', consumer')
            <==> stream == stream' && sequence == sequence' && consumer == consumer'
  {
    if DeadLetterMessageId(stream, sequence, consumer) == DeadLetterMessageId(stream', sequence', consumer') {
      SplitAtSeparator(stream, PrintNat(sequence) + [':'] + consumer,
                       stream', PrintNat(sequence') + [':'] + consumer', ':', 0);
      SplitAtSeparator(PrintNat(sequence), consumer, PrintNat(sequence'), consumer', ':', 0);
      PrintNatInjective(sequence, sequence');
    }
  }

  /** Without that proviso two different dead letters can share a message ID. */
  lemma DeadLetterMessageIdNeedsColonFreeStreams()
    ensures DeadLetterMessageId("a:1", 2, "x") == DeadLetterMessageId("a", 1, "2:x")
  {
  }

  /** The last separator splits a text, if what follows it holds none. */
  lemma SplitAtLastSeparator(a: string, b: string, c: string, d: string, separator: char)
    requires separator !in b && separator !in d && a + [separator] + b == c + [separator] + d
    ensures a == c && b == d
  {
    var whole := a + [separator] + b;
    assert whole[|a|] == separator && whole[|c|] == separator;
    assert forall i :: |a| < i < |whole| ==> whole[i] == b[i - |a| - 1];
    assert forall i :: |c| < i < |whole| ==> whole[i] == d[i - |c| - 1];
    assert a == whole[..|a|] && c == whole[..|c|];
    assert b == whole[|a| + 1..] && d == whole[|c| + 1..];
  }

  /** The forms of the three kinds of ID. */
  lemma IdsAsPrinted()
    ensures RoomId(7, -2) == "7--2"
    ensures DeadLetterMessageId("S", 10, "c") == "S:10:c"
    ensures ReplayMessageId("r", 3) == "dlq-replay:r:3"
  {
    assert PrintNat(10) == PrintNat(1) + "0";
  }

  /** A replay ID names exactly one dead-letter record, whatever its event ID contains. */
  lemma ReplayMessageIdInjective(record: string, sequence: nat, record': string, sequence': nat)
    ensures ReplayMessageId(record, sequence) == ReplayMessageId(record', sequence')
            <==> record == record' && sequence == sequence'
  {
    if ReplayMessageId(record, sequence) == ReplayMessageId(record', sequence') {
      var k := |REPLAY_PREFIX|;
      assert record + [':'] + PrintNat(sequence) == ReplayMessageId(record, sequence)[k..]
          == ReplayMessageId(record', sequence')[k..] == record' + [':'] + PrintNat(sequence');
      SplitAtLastSeparator(record, PrintNat(sequence), record', PrintNat(sequence'), ':');
      PrintNatInjective(sequence, sequence');
    }
  }

  // ---------- event IDs (UUID version 4, section 5.4 of RFC 9562) ----------

  predicate IsHex(c: char) { '0' <= c <= '9' || 'a' <= c <= 'f' }

  predicate IsEventId(id: string) {
    |id| == 36 && forall i :: 0 <= i < 36 ==> if i in {8, 13, 18, 23} then id[i] == '-' else IsHex(id[i])
  }

  type Byte = b: int | 0 <= b < 256

  function HexDigit(d: nat): (c: char)
    requires d < 16
    ensures IsHex(c)
  {
    "0123456789abcdef"[d]
  }

  function HexByte(b: Byte): (s: string)
    ensures |s| == 2 && IsHex(s[0]) && IsHex(s[1])
  {
    [HexDigit(b / 16), HexDigit(b % 16)]
  }

  function Hex(bytes: seq<Byte>): (s: string)
    ensures |s| == 2 * |bytes| && forall i :: 0 <= i < |s| ==> IsHex(s[i])
  {
    if bytes == [] then "" else HexByte(bytes[0]) + Hex(bytes[1..])
  }

  lemma HexDigitInjective(c: nat, d: nat)
    requires c < 16 && d < 16
    ensures HexDigit(c) == HexDigit(d) <==> c == d
  {
  }

  lemma HexByteInjective(a: Byte, b: Byte)
    requires HexByte(a) == HexByte(b)
    ensures a == b
  {
    HexDigitInjective(a / 16, b / 16);
    HexDigitInjective(a % 16, b % 16);
  }

  lemma {:induction false} HexInjective(a: seq<Byte>, b: seq<Byte>)
    requires Hex(a) == Hex(b)
    ensures a == b
  {
    if a != [] {
      assert HexByte(a[0]) == Hex(a)[..2] == Hex(b)[..2] == HexByte(b[0]);
      HexByteInjective(a[0], b[0]);
      assert Hex(a[1..]) == Hex(a)[2..] == Hex(b)[2..] == Hex(b[1..]);
      HexInjective(a[1..], b[1..]);
    }
  }

  /** The five groups of a printed ID. */
  function Grouped(a: string, b: string, c: string, d: string, e: string): string {
    a + "-" + b + "-" + c + "-" + d + "-" + e
  }

  lemma GroupsReadBack(a: string, b: string, c: string, d: string, e: string)
    requires |a| == 8 && |b| == |c| == |d| == 4 && |e| == 12
    ensures var id := Grouped(a, b, c, d, e);
            |id| == 36 && id[..8] == a && id[9..13] == b && id[14..18] == c && id[19..23] == d && id[24..] == e
  {
  }

  /** The bytes as they are printed. */
  function Versioned(random: seq<Byte>): (v: seq<Byte>)
    requires |random| == 16
    ensures |v| == 16
  {
    random[6 := random[6] % 16 + 64][8 := random[8] % 64 + 128]
  }

  function PrintedId(v: seq<Byte>): string
    requires |v| == 16
  {
    Grouped(Hex(v[0..4]), Hex(v[4..6]), Hex(v[6..8]), Hex(v[8..10]), Hex(v[10..16]))
  }

  /** Sixteen random bytes with the version and variant bits forced, printed in groups. */
  function NewEventId(random: seq<Byte>): (id: string)
    requires |random| == 16
    ensures IsEventId(id) && id[14] == '4' && id[19] in "89ab"
  {
    var v := Versioned(random);
    assert Hex(v[6..8])[0] == HexDigit(v[6] / 16) == '4';
    assert Hex(v[8..10])[0] == HexDigit(v[8] / 16);
    PrintedId(v)
  }

  /** The two draws agree in every bit that is not forced. */
  predicate SameRandomBits(a: seq<Byte>, b: seq<Byte>)
    requires |a| == |b| == 16
  {
    && a[..6] == b[..6] && a[6] % 16 == b[6] % 16 && a[7] == b[7]
    && a[8] % 64 == b[8] % 64 && a[9..] == b[9..]
  }

  lemma SameBytesSameBits(a: seq<Byte>, b: seq<Byte>)
    requires |a| == |b| == 16
    ensures Versioned(a) == Versioned(b) <==> SameRandomBits(a, b)
  {
    if Versioned(a) == Versioned(b) {
      assert a[..6] == Versioned(a)[..6] && b[..6] == Versioned(b)[..6];
      assert a[9..] == Versioned(a)[9..] && b[9..] == Versioned(b)[9..];
      assert a[7] == Versioned(a)[7] && b[7] == Versioned(b)[7];
      assert Versioned(a)[6] == a[6] % 16 + 64 && Versioned(b)[6] == b[6] % 16 + 64;
      assert Versioned(a)[8] == a[8] % 64 + 128 && Versioned(b)[8] == b[8] % 64 + 128;
    }
  }

  lemma SameIdSameBytes(v: seq<Byte>, w: seq<Byte>)
    requires |v| == |w| == 16 && PrintedId(v) == PrintedId(w)
    ensures v == w
  {
    GroupsReadBack(Hex(v[0..4]), Hex(v[4..6]), Hex(v[6..8]), Hex(v[8..10]), Hex(v[10..16]));
    GroupsReadBack(Hex(w[0..4]), Hex(w[4..6]), Hex(w[6..8]), Hex(w[8..10]), Hex(w[10..16]));
    HexInjective(v[0..4], w[0..4]);
    HexInjective(v[4..6], w[4..6]);
    HexInjective(v[6..8], w[6..8]);
    HexInjective(v[8..10], w[8..10]);
    HexInjective(v[10..16], w[10..16]);
    assert v == v[0..4] + v[4..6] + v[6..8] + v[8..10] + v[10..16];
    assert w == w[0..4] + w[4..6] + w[6..8] + w[8..10] + w[10..16];
  }

  /** An ID keeps all the random bits but the six that are forced: two draws give the same ID exactly when they agree in
      the others. */
  lemma EventIdKeepsRandomBits(a: seq<Byte>, b: seq<Byte>)
    requires |a| == |b| == 16
    ensures NewEventId(a) == NewEventId(b) <==> SameRandomBits(a, b)
  {
    SameBytesSameBits(a, b);
    if NewEventId(a) == NewEventId(b) {
      SameIdSameBytes(Versioned(a), Versioned(b));
    }
  }

  /** A republished dead letter can never be mistaken for a first publication. */
  lemma ReplayIdIsNoEventId(record: string, sequence: nat)
    ensures !IsEventId(ReplayMessageId(record, sequence))
  {
    assert ReplayMessageId(record, sequence)[1] == 'l';
  }
}
