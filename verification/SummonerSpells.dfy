/** Summoner spells: what they are called, how long they last, and pressing one to start or stop its timer. */
module SummonerSpells {
  import opened Common
  import opened Rooms

  const DEFAULT_HASTE := 18

  function GetSpellName(spellId: int): string {
    match spellId
    case 1 => "Cleanse"
    case 3 => "Exhaust"
    case 4 => "Flash"
    case 6 => "Ghost"
    case 7 => "Heal"
    case 11 => "Smite"
    case 12 => "Teleport"
    case 14 => "Ignite"
    case 21 => "Barrier"
    case _ => "Unknown"
  }

  function GetSpellCooldown(spellId: int): int {
    match spellId
    case 4 => 300
    case 14 => 180
    case 7 => 240
    case 3 => 240
    case 6 => 240
    case 12 => 300
    case 11 => 15
    case 21 => 180
    case 1 => 240
    case _ => 300
  }

  /** Division that truncates toward zero. */
  function Quotient(a: int, b: int): int
    requires b != 0
  {
    if a >= 0 then a / b else -((-a) / b)
  }

  /** `q` is a / b without its fraction: what is left of `a` is smaller than `b` and has the sign of `a`. */
  predicate Truncates(a: int, b: int, q: int) {
    var rest := a - q * b;
    && (a >= 0 ==> 0 <= rest) && (a <= 0 ==> rest <= 0)
    && (b > 0 ==> -b < rest < b) && (b < 0 ==> b < rest < -b)
  }

  lemma QuotientTruncates(a: int, b: int)
    requires b != 0
    ensures Truncates(a, b, Quotient(a, b))
  {
    if a >= 0 {
      DivisionTruncates(a, b);
    } else {
      DivisionTruncates(-a, b);
      NegationTruncates(-a, b, (-a) / b);
    }
  }

  lemma DivisionTruncates(a: nat, b: int)
    requires b != 0
    ensures Truncates(a, b, a / b)
  {
  }

  lemma NegationTruncates(a: int, b: int, q: int)
    requires Truncates(a, b, q)
    ensures Truncates(-a, b, -q)
  {
    assert (-q) * b == -(q * b);
  }

  /** A cooldown shortened by haste, in whole seconds. */
  function CalculateCooldown(baseCooldown: int, haste: int): int
    requires haste != -100
  {
    Quotient(baseCooldown * 100, 100 + haste)
  }

  lemma RoundedDown(a: nat, b: nat)
    requires b > 0
    ensures 0 <= Quotient(a, b) && Quotient(a, b) * b <= a < (Quotient(a, b) + 1) * b
  {
  }

  lemma NoLonger(cooldown: nat, baseCooldown: nat, share: nat)
    requires cooldown * share <= baseCooldown * 100
    ensures share >= 100 ==> cooldown <= baseCooldown
  {
    if share >= 100 {
      assert cooldown * 100 <= cooldown * share;
    }
  }

  /** With `haste` = `share` - 100, the cooldown is the largest whole number of seconds not above base * 100 / share;
      haste never lengthens it. */
  lemma CooldownRoundsDown(baseCooldown: nat, share: nat)
    requires share > 0
    ensures var cooldown := CalculateCooldown(baseCooldown, share - 100);
            && 0 <= cooldown && cooldown * share <= baseCooldown * 100 < (cooldown + 1) * share
            && (share >= 100 ==> cooldown <= baseCooldown)
  {
    RoundedDown(baseCooldown * 100, share);
    NoLonger(Quotient(baseCooldown * 100, share), baseCooldown, share);
  }

  // ---------- finding a spell ----------

  function FindSpell(spells: seq<Spell>, name: string): (found: Option<nat>)
    ensures found.Some? ==>
              && found.value < |spells| && spells[found.value].name == name
              && forall k :: 0 <= k < found.value ==> spells[k].name != name
    ensures found.None? ==> forall k :: 0 <= k < |spells| ==> spells[k].name != name
  {
    if spells == [] then None
    else if spells[0].name == name then Some(0)
    else
      match FindSpell(spells[1..], name)
      case None =>
        assert forall k :: 1 <= k < |spells| ==> spells[k] == spells[1..][k - 1];
        None
      case Some(i) =>
        assert forall k :: 1 <= k < |spells| ==> spells[k] == spells[1..][k - 1];
        Some(i + 1)
  }

  method SearchSpell(spells: seq<Spell>, name: string) returns (found: Option<nat>)
    ensures found == FindSpell(spells, name)
  {
    for i := 0 to |spells|
      invariant forall k :: 0 <= k < i ==> spells[k].name != name
    {
      if spells[i].name == name {
        return Some(i);
      }
    }
    return None;
  }

  // ---------- pressing a spell ----------

  function Pressed(spell: Spell, haste: int, now: Time): Spell
    requires spell.isReady ==> haste != -100
  {
    if !spell.isReady then
      spell.(isReady := true, cooldownEndTime := ZERO_TIME, remainingCooldown := 0)
    else
      var cooldown := CalculateCooldown(spell.baseCooldown, haste);
      spell.(isReady := false, remainingCooldown := cooldown, cooldownEndTime := now + cooldown * SECOND)
  }

  /** Pressing a ready spell of a player whose haste is -100 divides by zero. */
  predicate DividesByZero(player: Player, name: string) {
    var i := FindSpell(player.spells, name);
    i.Some? && player.spells[i.value].isReady && player.haste == -100
  }

  function Toggled(player: Player, name: string, now: Time): Option<Player>
    requires !DividesByZero(player, name)
  {
    match FindSpell(player.spells, name)
    case None => None
    case Some(i) => Some(player.(spells := player.spells[i := Pressed(player.spells[i], player.haste, now)]))
  }

  /** Spell `k` is pressed and nothing else changes: a running spell becomes ready; a ready one starts a cooldown of the
      whole seconds in base * 100 / (100 + haste), and ends that much later. */
  predicate PressedAt(player: Player, pressed: Player, k: nat, now: Time)
    requires k < |player.spells|
  {
    && |pressed.spells| == |player.spells|
    && pressed == player.(spells := pressed.spells)
    && (forall j :: 0 <= j < |player.spells| && j != k ==> pressed.spells[j] == player.spells[j])
    && pressed.spells[k].name == player.spells[k].name
    && pressed.spells[k].baseCooldown == player.spells[k].baseCooldown
    && if player.spells[k].isReady then
         var seconds := pressed.spells[k].remainingCooldown;
         && !pressed.spells[k].isReady
         && Truncates(player.spells[k].baseCooldown * 100, 100 + player.haste, seconds)
         && pressed.spells[k].cooldownEndTime == now + seconds * SECOND
       else
         pressed.spells[k].isReady && pressed.spells[k].remainingCooldown == 0 && pressed.spells[k].cooldownEndTime == ZERO_TIME
  }

  lemma PressMeans(player: Player, name: string, now: Time)
    requires !DividesByZero(player, name) && FindSpell(player.spells, name).Some?
    ensures PressedAt(player, Toggled(player, name, now).value, FindSpell(player.spells, name).value, now)
  {
    var spell := player.spells[FindSpell(player.spells, name).value];
    if spell.isReady {
      QuotientTruncates(spell.baseCooldown * 100, 100 + player.haste);
    }
  }

  method TogglePlayerSpell(player: Player, name: string, now: Time) returns (found: bool, toggled: Player)
    requires !DividesByZero(player, name)
    ensures found <==> Toggled(player, name, now).Some?
    ensures toggled == if found then Toggled(player, name, now).value else player
    ensures found <==> FindSpell(player.spells, name).Some?
    ensures found ==> PressedAt(player, toggled, FindSpell(player.spells, name).value, now)
  {
    var index := SearchSpell(player.spells, name);
    if index.None? {
      return false, player;
    }
    PressMeans(player, name, now);
    var spell := player.spells[index.value];
    if !spell.isReady {
      spell := spell.(isReady := true);
      spell := spell.(cooldownEndTime := ZERO_TIME);
      spell := spell.(remainingCooldown := 0);
      return true, player.(spells := player.spells[index.value := spell]);
    }
    var cooldown := CalculateCooldown(spell.baseCooldown, player.haste);
    spell := spell.(isReady := false);
    spell := spell.(remainingCooldown := cooldown);
    spell := spell.(cooldownEndTime := now + cooldown * SECOND);
    return true, player.(spells := player.spells[index.value := spell]);
  }

  // ---------- carrying timers over to a new list of spells ----------

  function Copied(spell: Spell, source: seq<Spell>): Spell {
    match FindSpell(source, spell.name)
    case None => spell
    case Some(i) => spell.(isReady := source[i].isReady, cooldownEndTime := source[i].cooldownEndTime,
                           remainingCooldown := source[i].remainingCooldown)
  }

  function AllCopied(spells: seq<Spell>, source: seq<Spell>): seq<Spell> {
    seq(|spells|, i requires 0 <= i < |spells| => Copied(spells[i], source))
  }

  method CopySpellState(source: Player, target: Player) returns (copied: Player)
    ensures copied == target.(spells := AllCopied(target.spells, source.spells))
  {
    var spells := target.spells;
    for i := 0 to |spells|
      invariant |spells| == |target.spells|
      invariant forall k :: 0 <= k < i ==> spells[k] == Copied(target.spells[k], source.spells)
      invariant forall k :: i <= k < |spells| ==> spells[k] == target.spells[k]
    {
      var index := SearchSpell(source.spells, spells[i].name);
      if index.Some? {
        var from := source.spells[index.value];
        spells := spells[i := spells[i].(isReady := from.isReady, cooldownEndTime := from.cooldownEndTime,
                                         remainingCooldown := from.remainingCooldown)];
      }
    }
    assert spells == AllCopied(target.spells, source.spells);
    return target.(spells := spells);
  }

  // ---------- what the spell table promises ----------

  ghost predicate InTable(name: string, baseCooldown: int) {
    exists spellId: int :: name == GetSpellName(spellId) && baseCooldown == GetSpellCooldown(spellId)
  }

  /** A spell's name fixes its base cooldown, so a timer copied between same-named spells stays meaningful. */
  lemma NameFixesCooldown(name: string, a: int, b: int)
    requires InTable(name, a) && InTable(name, b)
    ensures a == b
  {
  }

  /** The spells the client knows by number; every other number is an unknown spell of 300 seconds. */
  lemma SpellsByNumber(spellId: int)
    ensures (GetSpellName(spellId), GetSpellCooldown(spellId))
            == if spellId == 1 then ("Cleanse", 240) else if spellId == 3 then ("Exhaust", 240)
               else if spellId == 4 then ("Flash", 300) else if spellId == 6 then ("Ghost", 240)
               else if spellId == 7 then ("Heal", 240) else if spellId == 11 then ("Smite", 15)
               else if spellId == 12 then ("Teleport", 300) else if spellId == 14 then ("Ignite", 180)
               else if spellId == 21 then ("Barrier", 180) else ("Unknown", 300)
  {
  }

  const SHORTEST_COOLDOWN := 12
  const LONGEST_COOLDOWN := 254

  lemma TableCooldowns(name: string, baseCooldown: int)
    requires InTable(name, baseCooldown)
    ensures SHORTEST_COOLDOWN <= CalculateCooldown(baseCooldown, DEFAULT_HASTE) <= LONGEST_COOLDOWN
  {
  }
}
