/**
 Usernames: which ones a player may choose, and which ones the server makes up.
 */
module Usernames {

  predicate Letter(c: char) {
    'a' <= c <= 'z' || 'A' <= c <= 'Z'
  }

  predicate Digit(c: char) {
    '0' <= c <= '9'
  }

  /** The pattern `^[a-zA-Z0-9_]{3,30}$`. */
  predicate WellFormed(s: string) {
    3 <= |s| <= 30 && forall i | 0 <= i < |s| :: Letter(s[i]) || Digit(s[i]) || s[i] == '_'
  }

  function Adjectives1(): seq<string> {
    [
      "Amber", "Ancient", "Arctic", "Ashen", "Blazing", "Blighted", "Bold", "Brave", "Bronze", "Calm", "Clever",
      "Cloudy", "Cobalt", "Cosmic", "Crimson", "Crystal", "Dark", "Dawn", "Deft", "Dire"
    ]
  }

  function Adjectives2(): seq<string> {
    [
      "Dusk", "Dusty", "Elder", "Ember", "Endless", "Fallen", "Fierce", "Feral", "Frosty", "Gilded", "Grim",
      "Hollow", "Honored", "Icy", "Infernal", "Jagged", "Jade", "Keen", "Lofty", "Lost"
    ]
  }

  function Adjectives3(): seq<string> {
    [
      "Lunar", "Lurking", "Marbled", "Misty", "Molten", "Mystic", "Noble", "Nether", "Obsidian", "Ominous",
      "Pale", "Phantom", "Primal", "Rapid", "Raging", "Runed", "Scarlet", "Shadowed", "Silent", "Silver"
    ]
  }

  function Adjectives4(): seq<string> {
    [
      "Sly", "Solar", "Spectral", "Stern", "Stony", "Stormy", "Swift", "Toxic", "Twilight", "Unyielding",
      "Veiled", "Vengeful", "Void", "Wicked", "Wild", "Withered", "Wrathful"
    ]
  }

  function Adjectives(): seq<string> {
    Adjectives1() + Adjectives2() + Adjectives3() + Adjectives4()
  }

  function Nouns1(): seq<string> {
    [
      "Adder", "Anvil", "Archer", "Asp", "Axe", "Basilisk", "Bear", "Blade", "Blaze", "Boar", "Bolt", "Bulwark",
      "Claw", "Cobra", "Condor", "Crag", "Drake", "Drifter", "Duelist", "Eagle"
    ]
  }

  function Nouns2(): seq<string> {
    [
      "Ember", "Falcon", "Fang", "Forge", "Fox", "Gale", "Gargoyle", "Ghost", "Golem", "Guardian", "Hawk",
      "Helm", "Hound", "Hunter", "Hydra", "Iron", "Jackal", "Knight", "Lance", "Lynx"
    ]
  }

  function Nouns3(): seq<string> {
    [
      "Mantle", "Marauder", "Monk", "Ogre", "Oracle", "Panther", "Pike", "Ranger", "Raven", "Reaver", "Rogue",
      "Sage", "Sentry", "Serpent", "Shade", "Shield", "Skull", "Slayer", "Specter", "Spike"
    ]
  }

  function Nouns4(): seq<string> {
    [
      "Spirit", "Stalker", "Storm", "Striker", "Tempest", "Thorn", "Tiger", "Titan", "Toad", "Tracker", "Troll",
      "Viper", "Void", "Warden", "Warlock", "Wasp", "Wolf", "Wyrm"
    ]
  }

  function Nouns(): seq<string> {
    Nouns1() + Nouns2() + Nouns3() + Nouns4()
  }

  /** A word of three to ten letters. */
  predicate Word(w: string) {
    3 <= |w| <= 10 && forall i | 0 <= i < |w| :: Letter(w[i])
  }

  lemma AllOf(a: seq<string>, b: seq<string>, c: seq<string>, d: seq<string>)
    requires forall i | 0 <= i < |a| :: Word(a[i])
    requires forall i | 0 <= i < |b| :: Word(b[i])
    requires forall i | 0 <= i < |c| :: Word(c[i])
    requires forall i | 0 <= i < |d| :: Word(d[i])
    ensures |a + b + c + d| == |a| + |b| + |c| + |d|
    ensures forall i | 0 <= i < |a + b + c + d| :: Word((a + b + c + d)[i])
  {
  }

  lemma Adjectives1AreWords()
    ensures |Adjectives1()| == 20 && forall i | 0 <= i < |Adjectives1()| :: Word(Adjectives1()[i])
  {
  }

  lemma Adjectives2AreWords()
    ensures |Adjectives2()| == 20 && forall i | 0 <= i < |Adjectives2()| :: Word(Adjectives2()[i])
  {
  }

  lemma Adjectives3AreWords()
    ensures |Adjectives3()| == 20 && forall i | 0 <= i < |Adjectives3()| :: Word(Adjectives3()[i])
  {
  }

  lemma Adjectives4AreWords()
    ensures |Adjectives4()| == 17 && forall i | 0 <= i < |Adjectives4()| :: Word(Adjectives4()[i])
  {
  }

  lemma AdjectivesAreWords()
    ensures |Adjectives()| == 77 && forall i | 0 <= i < |Adjectives()| :: Word(Adjectives()[i])
  {
    Adjectives1AreWords();
    Adjectives2AreWords();
    Adjectives3AreWords();
    Adjectives4AreWords();
    AllOf(Adjectives1(), Adjectives2(), Adjectives3(), Adjectives4());
  }

  lemma Nouns1AreWords()
    ensures |Nouns1()| == 20 && forall i | 0 <= i < |Nouns1()| :: Word(Nouns1()[i])
  {
  }

  lemma Nouns2AreWords()
    ensures |Nouns2()| == 20 && forall i | 0 <= i < |Nouns2()| :: Word(Nouns2()[i])
  {
  }

  lemma Nouns3AreWords()
    ensures |Nouns3()| == 20 && forall i | 0 <= i < |Nouns3()| :: Word(Nouns3()[i])
  {
  }

  lemma Nouns4AreWords()
    ensures |Nouns4()| == 18 && forall i | 0 <= i < |Nouns4()| :: Word(Nouns4()[i])
  {
  }

  lemma NounsAreWords()
    ensures |Nouns()| == 78 && forall i | 0 <= i < |Nouns()| :: Word(Nouns()[i])
  {
    Nouns1AreWords();
    Nouns2AreWords();
    Nouns3AreWords();
    Nouns4AreWords();
    AllOf(Nouns1(), Nouns2(), Nouns3(), Nouns4());
  }

  /** The decimal form of a number below 1000 that is at least 10. */
  function Decimal(n: nat): (s: string)
    requires 10 <= n < 1000
    ensures 2 <= |s| <= 3 && forall i | 0 <= i < |s| :: Digit(s[i])
  {
    if n < 100 then [DigitOf(n / 10), DigitOf(n % 10)] else [DigitOf(n / 100), DigitOf(n / 10 % 10), DigitOf(n % 10)]
  }

  function DigitOf(d: nat): (c: char)
    requires d < 10
    ensures Digit(c)
  {
    '0' + d as char
  }

  /** An adjective, a noun and a number from 10 to 999, each picked by a random draw. */
  function GenerateUsername(adjective: nat, noun: nat, number: nat): (s: string)
    ensures WellFormed(s) && |s| <= 23
  {
    AdjectivesAreWords();
    NounsAreWords();
    var a := Adjectives()[adjective % |Adjectives()|];
    var n := Nouns()[noun % |Nouns()|];
    assert Word(a) && Word(n);
    a + n + Decimal(number % 990 + 10)
  }

  function DigitValue(c: char): nat
    requires Digit(c)
  {
    c as int - '0' as int
  }

  /** The number a string of digits stands for. */
  function NumberOf(s: string): nat
    requires forall i | 0 <= i < |s| :: Digit(s[i])
  {
    if s == "" then 0 else 10 * NumberOf(s[..|s| - 1]) + DigitValue(s[|s| - 1])
  }

  lemma DecimalIsNumber(n: nat)
    requires 10 <= n < 1000
    ensures NumberOf(Decimal(n)) == n
  {
    if n < 100 {
      NumberOfTwo(n / 10, n % 10);
    } else {
      NumberOfThree(n / 100, n / 10 % 10, n % 10);
      Digits(n);
    }
  }

  lemma NumberOfTwo(a: nat, b: nat)
    requires a < 10 && b < 10
    ensures NumberOf([DigitOf(a), DigitOf(b)]) == 10 * a + b
  {
    var s := [DigitOf(a), DigitOf(b)];
    assert s[..1] == [DigitOf(a)] && [DigitOf(a)][..0] == "";
    assert NumberOf("") == 0;
    assert NumberOf([DigitOf(a)]) == a;
  }

  lemma NumberOfThree(a: nat, b: nat, c: nat)
    requires a < 10 && b < 10 && c < 10
    ensures NumberOf([DigitOf(a), DigitOf(b), DigitOf(c)]) == 100 * a + 10 * b + c
  {
    var s := [DigitOf(a), DigitOf(b), DigitOf(c)];
    assert s[..2] == [DigitOf(a), DigitOf(b)];
    NumberOfTwo(a, b);
  }

  lemma Digits(n: nat)
    requires n < 1000
    ensures 100 * (n / 100) + 10 * (n / 10 % 10) + n % 10 == n
  {
  }

  /** Each of the 77 adjectives, 78 nouns and 990 numbers is drawn by some draw, and nothing else is. */
  lemma EveryCombination(adjective: nat, noun: nat, number: nat)
    ensures |Adjectives()| == 77 && |Nouns()| == 78
    ensures var a, w, k := adjective % 77, noun % 78, number % 990;
      && GenerateUsername(adjective, noun, number) == Adjectives()[a] + Nouns()[w] + Decimal(k + 10)
      && NumberOf(Decimal(k + 10)) == k + 10
  {
    AdjectivesAreWords();
    NounsAreWords();
    DecimalIsNumber(number % 990 + 10);
    hide Adjectives, Nouns, Word, Decimal;
  }
}
