/** The text of the status board that `display_status` posts
    (organizers_bot/bot.py:63-76), as a function of the state. */
module Render {
  import opened PyStr
  import opened OrderedMap
  import opened Board

  /** ✅ and ❌ */
  const Check: char := '\U{2705}'
  const Cross: char := '\U{274C}'

  /** The ANSI SGR sequences around a category header: bold white, then plain white. */
  const Bold: string := "\U{1B}[1;37m"
  const Plain: string := "\U{1B}[0;37m"

  /** The separator line and the code-fence lines around the board. */
  const Rule: string := Repeat('-', 30) + "-+" + Repeat('-', 50)
  const Open: string := "```ansi"
  const Close: string := "```"

  /** The mode in which vuln lines are shown. */
  const AttackDefense: string := "AD"

  /** How Python happens to iterate over a set of player names: any listing of the
      set's members, the order being the interpreter's. */
  type Listing = set<string> -> seq<string>

  ghost predicate Lists(l: seq<string>, s: set<string>) {
    forall x :: x in l <==> x in s
  }

  /** The bold escape sequence opens the line, which is how a reader spots a header,
      and the upper-cased name follows it. */
  function Header(cat: string): (r: string)
    ensures StartsWith(r, Bold) && |Bold| + |cat| < |r| && r[|Bold|..|Bold| + |cat|] == Upper(cat)
    ensures r[|r| - 1] == '|'
  {
    Bold + PadRight(Upper(cat), 30) + " " + Plain + "|"
  }

  /** The status column: solved, else the players on it, else unassigned. */
  function Status(ch: Challenge, listing: Listing): (r: string)
    ensures ch.solved ==> r == [Check]
    ensures !ch.solved && ch.assignees == {} ==> r == [Cross]
    ensures !ch.solved && ch.assignees != {} && Lists(listing(ch.assignees), ch.assignees)
            && (forall p :: p in ch.assignees ==> Check !in p && Cross !in p) ==>
              Check !in r && Cross !in r
  {
    if ch.solved then [Check]
    else if ch.assignees != {} then Join(listing(ch.assignees), ", ")
    else [Cross]
  }

  /** The name, left-aligned in a column of 30, then the bar and the status. */
  function ChallengeLine(name: string, ch: Challenge, listing: Listing): (r: string)
    ensures StartsWith(r, name) && |r| >= 33 + |Status(ch, listing)|
    ensures |name| <= 30 ==> r[30..33] == " | "
    ensures r[|r| - |Status(ch, listing)|..] == Status(ch, listing)
  {
    PadRight(name, 30) + " | " + Status(ch, listing)
  }

  function Glyph(b: bool): string {
    if b then [Check] else [Cross]
  }

  /** Indented by ten blanks, which is how a reader spots a vuln line; the exploit
      glyph ends it. */
  function VulnLine(name: string, v: Vuln): (r: string)
    ensures StartsWith(r, Repeat(' ', 10)) && 10 + |name| < |r| && r[10..10 + |name|] == name
    ensures r[|r| - 1] == if v.exploit then Check else Cross
  {
    Repeat(' ', 10) + PadRight(name, 20) + " | patch: " + Glyph(v.patch) + " | exploit: " + Glyph(v.exploit)
  }

  /** The vuln lines of one challenge, in key order. */
  function VulnLines(keys: seq<string>, vm: map<string, Vuln>): (r: seq<string>)
    requires forall k :: k in keys ==> k in vm
    ensures |r| == |keys|
  {
    if keys == [] then []
    else VulnLines(keys[..|keys| - 1], vm) + [VulnLine(keys[|keys| - 1], vm[keys[|keys| - 1]])]
  }

  /** One challenge's line, followed by its vuln lines in attack-defense mode. */
  function ChallengeBlock(ad: bool, name: string, ch: Challenge, listing: Listing): (r: seq<string>)
    requires Valid(ch.vulns)
    ensures |r| == 1 + (if ad then |ch.vulns.keys| else 0)
    ensures r[0] == ChallengeLine(name, ch, listing)
  {
    [ChallengeLine(name, ch, listing)] + if ad then VulnLines(ch.vulns.keys, ch.vulns.vals) else []
  }

  /** One line per challenge outside attack-defense mode, at least one inside it. */
  function ChallengeLines(ad: bool, keys: seq<string>, cm: map<string, Challenge>, listing: Listing): (r: seq<string>)
    requires forall k :: k in keys ==> k in cm && Valid(cm[k].vulns)
    ensures |r| >= |keys| && (!ad ==> |r| == |keys|)
  {
    if keys == [] then []
    else
      var last := keys[|keys| - 1];
      ChallengeLines(ad, keys[..|keys| - 1], cm, listing) + ChallengeBlock(ad, last, cm[last], listing)
  }

  /** A category's separator, header and challenge lines. */
  function CategoryBlock(ad: bool, cat: string, om: OMap<Challenge>, listing: Listing): (r: seq<string>)
    requires Valid(om) && forall k :: k in om.vals ==> Valid(om.vals[k].vulns)
    ensures |r| >= 2 + |om.keys| && (!ad ==> |r| == 2 + |om.keys|)
    ensures r[0] == Rule && r[1] == Header(cat)
  {
    [Rule, Header(cat)] + ChallengeLines(ad, om.keys, om.vals, listing)
  }

  /** The category blocks, in the configured order. */
  /** Every category contributes its separator, header and challenge lines. */
  function BoardLines(ad: bool, cats: seq<string>, b: Challs, listing: Listing): (r: seq<string>)
    requires BoardValid(b) && forall c :: c in cats ==> c in b
    ensures |r| >= 2 * |cats| && (cats != [] ==> r[0] == Rule)
  {
    if cats == [] then []
    else
      var last := cats[|cats| - 1];
      BoardLines(ad, cats[..|cats| - 1], b, listing) + CategoryBlock(ad, last, b[last], listing)
  }

  // Each listing is the one before its last element followed by that element's lines.

  lemma VulnLinesLast(keys: seq<string>, vm: map<string, Vuln>, m: nat)
    requires 0 < m <= |keys| && forall k :: k in keys ==> k in vm
    ensures VulnLines(keys[..m], vm) == VulnLines(keys[..m - 1], vm) + [VulnLine(keys[m - 1], vm[keys[m - 1]])]
  {
    assert keys[..m][..m - 1] == keys[..m - 1];
  }

  lemma ChallengeLinesLast(ad: bool, keys: seq<string>, cm: map<string, Challenge>, listing: Listing, j: nat)
    requires 0 < j <= |keys| && forall k :: k in keys ==> k in cm && Valid(cm[k].vulns)
    ensures ChallengeLines(ad, keys[..j], cm, listing)
         == ChallengeLines(ad, keys[..j - 1], cm, listing) + ChallengeBlock(ad, keys[j - 1], cm[keys[j - 1]], listing)
  {
    assert keys[..j][..j - 1] == keys[..j - 1];
  }

  lemma BoardLinesLast(ad: bool, cats: seq<string>, b: Challs, listing: Listing, k: nat)
    requires BoardValid(b) && 0 < k <= |cats| && forall c :: c in cats ==> c in b
    ensures BoardLines(ad, cats[..k], b, listing)
         == BoardLines(ad, cats[..k - 1], b, listing) + CategoryBlock(ad, cats[k - 1], b[cats[k - 1]], listing)
  {
    assert cats[..k][..k - 1] == cats[..k - 1];
  }

  /** The message `display_status` posts. */
  function RenderBoard(mode: string, cats: seq<string>, b: Challs, listing: Listing): (r: string)
    requires BoardValid(b) && forall c :: c in cats ==> c in b
    ensures StartsWith(r, Open + "\n")
    ensures |r| >= |Close| && r[|r| - |Close|..] == Close
  {
    Open + "\n" + Unlines(BoardLines(mode == AttackDefense, cats, b, listing)) + Rule + "\n" + Close
  }
}
