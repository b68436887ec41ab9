/** Reading a posted board back (organizers_bot/bot.py:97-123) restores what the board
    shows (organizers_bot/bot.py:63-76), for names that do not clash with its layout. */
module RoundTrip {
  import opened PyStr
  import opened OrderedMap
  import opened Board
  import opened Render
  import opened Parse

  // ---------------------------------------------------------------------------
  // Names the layout can carry

  /** A field of a `|`-separated line: non-empty, no surrounding whitespace, no `|`,
      on one line. */
  predicate FieldOk(s: string) {
    s != [] && Stripped(s) && '|' !in s && '\n' !in s
  }

  /** A challenge line must not look like a separator, a fence or a header. */
  predicate ChallengeNameOk(s: string) {
    FieldOk(s) && s[0] != '-' && s[0] != '`' && s[0] != '\U{1B}'
  }

  /** A player name must survive `", ".join` and the split on `,`, and must not look like a glyph. */
  predicate PlayerOk(p: string) {
    FieldOk(p) && ',' !in p && Check !in p && Cross !in p
  }

  /** A category name must be one ASCII word that upper-cases and lower-cases back to
      itself and whose ends the header's escape sequences do not eat. Outside ASCII,
      Python's case mappings can change a name ("ß" upper-cases to "SS"). */
  predicate CategoryNameOk(c: string) {
    && (forall i :: 0 <= i < |c| ==> c[i] !in Whitespace && c[i] as int < 128)
    && NoCapitals(c)
    && (c == [] || (Upper(c)[0] !in BoldSet && Upper(c)[|c| - 1] !in PlainSet))
  }

  ghost predicate ChallengeOk(ch: Challenge) {
    && Valid(ch.vulns)
    && (forall v :: v in ch.vulns.vals ==> FieldOk(v))
    && (forall p :: p in ch.assignees ==> PlayerOk(p))
  }

  ghost predicate CategoryOk(om: OMap<Challenge>) {
    && Valid(om)
    && (forall n :: n in om.vals ==> ChallengeNameOk(n) && ChallengeOk(om.vals[n]))
  }

  /** The state for the configured categories `cats`, with names the board can carry. */
  ghost predicate WellFormed(cats: seq<string>, b: Challs) {
    && Distinct(cats)
    && (forall c :: c in b <==> c in cats)
    && (forall i :: 0 <= i < |cats| ==> CategoryNameOk(cats[i]))
    && (forall c :: c in b ==> CategoryOk(b[c]))
  }

  /** Every set the listing is asked about comes back with exactly its members. */
  ghost predicate ListsAll(listing: Listing) {
    forall s :: Lists(listing(s), s)
  }

  // ---------------------------------------------------------------------------
  // What the board shows

  /** A challenge as the board shows it: a solved one lists nobody, and vulns only
      appear when both the board and the reader are in attack-defense mode. */
  function Shown(ch: Challenge, keepVulns: bool): Challenge {
    Challenge(ch.solved, if ch.solved then {} else ch.assignees, if keepVulns then ch.vulns else Empty())
  }

  function ShownCategory(om: OMap<Challenge>, keepVulns: bool): OMap<Challenge> {
    OMap(om.keys, map n | n in om.vals :: Shown(om.vals[n], keepVulns))
  }

  function ShownBoard(b: Challs, keepVulns: bool): Challs {
    map c | c in b :: ShownCategory(b[c], keepVulns)
  }

  ghost predicate NoBreaks(ls: seq<string>) {
    forall i :: 0 <= i < |ls| ==> '\n' !in ls[i]
  }

  // ---------------------------------------------------------------------------
  // String facts

  lemma {:induction false} JoinAvoids(l: seq<string>, sep: string, c: char)
    requires c !in sep && forall i :: 0 <= i < |l| ==> c !in l[i]
    ensures c !in Join(l, sep)
    decreases |l|
  {
    if |l| > 1 {
      JoinAvoids(l[1..], sep, c);
    }
  }

  lemma JoinFirst(l: seq<string>, sep: string)
    requires l != [] && l[0] != []
    ensures |Join(l, sep)| > 0 && Join(l, sep)[0] == l[0][0]
  {
    if |l| > 1 {
      var rest := Join(l[1..], sep);
      assert Join(l, sep) == l[0] + (sep + rest);
    }
  }

  lemma JoinConsLast(l: seq<string>, sep: string)
    requires |l| > 1 && |Join(l[1..], sep)| > 0
    ensures |Join(l, sep)| > 0
    ensures Join(l, sep)[|Join(l, sep)| - 1] == Join(l[1..], sep)[|Join(l[1..], sep)| - 1]
  {
    var rest := Join(l[1..], sep);
    assert Join(l, sep) == (l[0] + sep) + rest;
  }

  lemma {:induction false} JoinLast(l: seq<string>, sep: string)
    requires l != [] && l[|l| - 1] != []
    ensures |Join(l, sep)| > 0 && Join(l, sep)[|Join(l, sep)| - 1] == l[|l| - 1][|l[|l| - 1]| - 1]
    decreases |l|
  {
    if |l| > 1 {
      assert l[1..][|l[1..]| - 1] == l[|l| - 1];
      JoinLast(l[1..], sep);
      JoinConsLast(l, sep);
    }
  }

  /** A join of non-empty names starts with the first name's first character and ends
      with the last name's last character. */
  lemma JoinEnds(l: seq<string>, sep: string)
    requires l != [] && forall i :: 0 <= i < |l| ==> l[i] != []
    ensures |Join(l, sep)| > 0
    ensures Join(l, sep)[0] == l[0][0]
    ensures Join(l, sep)[|Join(l, sep)| - 1] == l[|l| - 1][|l[|l| - 1]| - 1]
  {
    JoinFirst(l, sep);
    JoinLast(l, sep);
  }

  lemma StripAllCons(a: string, t: seq<string>)
    ensures StripAll([a] + t) == [Strip(a)] + StripAll(t)
  {
    assert ([a] + t)[1..] == t;
  }

  lemma CommaRegroup(p: string, a: string, r: string)
    ensures p + (a + ([','] + " ") + r) == (p + a) + [','] + (" " + r)
  {
  }

  lemma JoinCommaCons(l: seq<string>)
    requires |l| > 1
    ensures Join(l, ", ") == l[0] + ([','] + " ") + Join(l[1..], ", ")
  {
    assert ", " == [','] + " ";
  }

  lemma PlayerPadded(p: string, name: string)
    requires p == [] || p == " "
    requires PlayerOk(name)
    ensures ',' !in p + name && Strip(p + name) == name
  {
    assert ',' !in p && forall i :: 0 <= i < |p| ==> p[i] == ' ';
    SpacesWhite(p);
    SpacesWhite([]);
    StripPadded(p, name, []);
    assert p + name + [] == p + name;
  }

  lemma PlayersSplitOne(p: string, l: seq<string>)
    requires p == [] || p == " "
    requires |l| == 1 && PlayerOk(l[0])
    ensures StripAll(Split(p + Join(l, ", "), ',')) == l
  {
    var a := p + l[0];
    assert Join(l, ", ") == l[0];
    assert Split(a, ',') == [a] by {
      PlayerPadded(p, l[0]);
      SplitNoSep(a, ',');
    }
    assert Strip(a) == l[0] by {
      PlayerPadded(p, l[0]);
    }
    assert StripAll([a]) == [Strip(a)];
    assert [l[0]] == l;
  }

  lemma PlayersSplitCons(p: string, l: seq<string>)
    requires p == [] || p == " "
    requires |l| > 1 && PlayerOk(l[0])
    ensures StripAll(Split(p + Join(l, ", "), ',')) == [l[0]] + StripAll(Split(" " + Join(l[1..], ", "), ','))
  {
    var rest := Join(l[1..], ", ");
    PlayerPadded(p, l[0]);
    assert Split(p + Join(l, ", "), ',') == [p + l[0]] + Split(" " + rest, ',') by {
      JoinCommaCons(l);
      CommaRegroup(p, l[0], rest);
      SplitAt(p + l[0], ',', " " + rest);
    }
    StripAllCons(p + l[0], Split(" " + rest, ','));
  }

  lemma PlayersTail(l: seq<string>)
    requires l != [] && forall i :: 0 <= i < |l| ==> PlayerOk(l[i])
    ensures PlayerOk(l[0]) && forall i :: 0 <= i < |l[1..]| ==> PlayerOk(l[1..][i])
  {
    forall i | 0 <= i < |l[1..]| ensures PlayerOk(l[1..][i]) {
      assert l[1..][i] == l[i + 1];
    }
  }

  lemma ConsBack(l: seq<string>)
    requires l != []
    ensures [l[0]] + l[1..] == l
  {
  }

  /** `[x.strip() for x in (p + ", ".join(l)).split(",")] == l` for `p` empty or a space. */
  lemma {:induction false} PlayersSplit(p: string, l: seq<string>)
    requires p == [] || p == " "
    requires l != [] && forall i :: 0 <= i < |l| ==> PlayerOk(l[i])
    ensures StripAll(Split(p + Join(l, ", "), ',')) == l
    decreases |l|
  {
    if |l| == 1 {
      PlayersSplitOne(p, l);
    } else {
      PlayersTail(l);
      PlayersSplitCons(p, l);
      PlayersSplit(" ", l[1..]);
      ConsBack(l);
    }
  }

  /** `UpperChar` never makes whitespace out of something else. */
  lemma UpperNoWhitespace(c: string)
    requires forall i :: 0 <= i < |c| ==> c[i] !in Whitespace
    ensures forall x :: x in Upper(c) ==> x !in Whitespace
  {
    forall x | x in Upper(c) ensures x !in Whitespace {
      var i :| 0 <= i < |c| && Upper(c)[i] == x;
      assert x == UpperChar(c[i]);
    }
  }

  // ---------------------------------------------------------------------------
  // The fields of one line

  /** Splitting three `|`-free fields joined by `|`. */
  lemma ThreeFields(f0: string, f1: string, f2: string)
    requires '|' !in f0 && '|' !in f1 && '|' !in f2
    ensures Split(f0 + ['|'] + (f1 + ['|'] + f2), '|') == [f0, f1, f2]
  {
    SplitNoSep(f2, '|');
    SplitAt(f1, '|', f2);
    SplitAt(f0, '|', f1 + ['|'] + f2);
  }

  lemma Regroup3(a: string, b: string, c: string, d: string)
    ensures a + b + (c + d) == a + (b + c) + d
  {
  }

  /** A name padded with spaces, with spaces in front, strips back to the name. */
  lemma PaddedName(indent: string, name: string, pad: string)
    requires Stripped(name)
    requires forall i :: 0 <= i < |indent| ==> indent[i] == ' '
    requires forall i :: 0 <= i < |pad| ==> pad[i] == ' '
    ensures Strip(indent + (name + pad) + " ") == name
  {
    var q := pad + " ";
    forall i | 0 <= i < |q| ensures q[i] == ' ' {
      if i < |pad| {
        assert q[i] == pad[i];
      }
    }
    SpacesWhite(indent);
    SpacesWhite(q);
    StripPadded(indent, name, q);
    Regroup3(indent, name, pad, " ");
  }

  lemma GlyphChars(b: bool)
    ensures '|' !in Glyph(b) && '\n' !in Glyph(b) && (Check in Glyph(b) <==> b)
  {
  }

  // ---------------------------------------------------------------------------
  // One line at a time

  lemma HeaderWord(u: string, pad: string)
    requires forall x :: x in u ==> x !in Whitespace
    requires forall i :: 0 <= i < |pad| ==> pad[i] == ' '
    ensures FirstWord(Bold + (u + pad) + " " + Plain + "|") == Some(Bold + u)
  {
    var tail := pad + " " + Plain + "|";
    var line := Bold + (u + pad) + " " + Plain + "|";
    assert line == (Bold + u) + tail;
    assert tail[0] == ' ';
    TakeWordPrefix(Bold + u, tail);
    assert line[0] == '\U{1B}';
    assert LStrip(line, Whitespace) == line;
  }

  lemma HeaderFirstWord(cat: string)
    requires CategoryNameOk(cat)
    ensures FirstWord(Header(cat)) == Some(Bold + Upper(cat))
  {
    var u := Upper(cat);
    var pad := Repeat(' ', if |u| < 30 then 30 - |u| else 0);
    assert PadRight(u, 30) == u + pad;
    UpperNoWhitespace(cat);
    HeaderWord(u, pad);
  }

  lemma HeaderUnstyled(cat: string)
    requires CategoryNameOk(cat)
    ensures Lower(RStrip(LStrip(Bold + Upper(cat), BoldSet), PlainSet)) == cat
  {
    var u := Upper(cat);
    LStripPrefix(Bold, u, BoldSet);
    RStripSuffix(u, [], PlainSet);
    assert u + [] == u;
    LowerUpper(cat);
  }

  lemma PrefixStarts(p: string, rest: string)
    requires p != []
    ensures StartsWith(p + rest, p) && (p + rest)[0] == p[0]
  {
    assert (p + rest)[..|p|] == p;
  }

  lemma PadNoBreak(u: string)
    requires '\n' !in u
    ensures '\n' !in PadRight(u, 30)
  {
    var r := PadRight(u, 30);
    forall i | 0 <= i < |r| ensures r[i] != '\n' {
      if i < |u| {
        assert r[i] == r[..|u|][i];
      }
    }
  }

  lemma HeaderNoBreak(cat: string)
    requires CategoryNameOk(cat)
    ensures '\n' !in Header(cat)
  {
    var u := Upper(cat);
    UpperNoWhitespace(cat);
    assert '\n' !in u;
    PadNoBreak(u);
    assert '\n' !in Bold && '\n' !in Plain;
  }

  lemma HeaderKind(cat: string)
    requires CategoryNameOk(cat)
    ensures StartsWith(Header(cat), Bold)
    ensures !StartsWith(Header(cat), "-") && !StartsWith(Header(cat), "`")
    ensures '\n' !in Header(cat)
  {
    var rest := PadRight(Upper(cat), 30) + " " + Plain + "|";
    assert Header(cat) == Bold + rest;
    PrefixStarts(Bold, rest);
    FirstCharDiffers(Header(cat), "-");
    FirstCharDiffers(Header(cat), "`");
    HeaderNoBreak(cat);
  }

  /** A category header reads back as the category's name. */
  lemma HeaderReads(cat: string)
    requires CategoryNameOk(cat)
    ensures StartsWith(Header(cat), Bold)
    ensures !StartsWith(Header(cat), "-") && !StartsWith(Header(cat), "`")
    ensures HeaderName(Header(cat)) == Some(cat)
    ensures '\n' !in Header(cat)
  {
    HeaderKind(cat);
    HeaderFirstWord(cat);
    HeaderUnstyled(cat);
  }

  lemma AssigneesListed(ch: Challenge, listing: Listing)
    requires ChallengeOk(ch) && ListsAll(listing)
    ensures Lists(listing(ch.assignees), ch.assignees)
    ensures forall i :: 0 <= i < |listing(ch.assignees)| ==> PlayerOk(listing(ch.assignees)[i])
  {
    var l := listing(ch.assignees);
    assert Lists(l, ch.assignees);
    forall i | 0 <= i < |l| ensures PlayerOk(l[i]) { assert l[i] in l; }
  }

  lemma JoinStripped(l: seq<string>)
    requires l != [] && forall i :: 0 <= i < |l| ==> PlayerOk(l[i])
    ensures Strip(" " + Join(l, ", ")) == Join(l, ", ")
  {
    var status := Join(l, ", ");
    JoinEnds(l, ", ");
    assert Stripped(status);
    StripPadded(" ", status, []);
    assert " " + status + [] == " " + status;
  }

  lemma JoinPlain(l: seq<string>)
    requires forall i :: 0 <= i < |l| ==> PlayerOk(l[i])
    ensures '|' !in Join(l, ", ") && '\n' !in Join(l, ", ")
    ensures Check !in " " + Join(l, ", ") && Cross !in " " + Join(l, ", ")
  {
    JoinAvoids(l, ", ", '|');
    JoinAvoids(l, ", ", '\n');
    JoinAvoids(l, ", ", Check);
    JoinAvoids(l, ", ", Cross);
  }

  lemma ListedNonEmpty(s: set<string>, l: seq<string>)
    requires s != {} && Lists(l, s)
    ensures l != [] && SetOf(l) == s
  {
    var some :| some in s;
    assert some in l;
  }

  lemma PlayersSplitPlain(l: seq<string>)
    requires l != [] && forall i :: 0 <= i < |l| ==> PlayerOk(l[i])
    ensures StripAll(Split(Join(l, ", "), ',')) == l
  {
    PlayersSplit([], l);
    assert [] + Join(l, ", ") == Join(l, ", ");
  }

  lemma PlayersParse(l: seq<string>)
    requires l != [] && forall i :: 0 <= i < |l| ==> PlayerOk(l[i])
    ensures StripAll(Split(Strip(" " + Join(l, ", ")), ',')) == l
  {
    JoinStripped(l);
    PlayersSplitPlain(l);
  }

  /** The players' column reads back as the set of players. */
  lemma PlayersReadBack(s: set<string>, l: seq<string>)
    requires s != {} && Lists(l, s)
    requires forall i :: 0 <= i < |l| ==> PlayerOk(l[i])
    ensures SetOf(StripAll(Split(Strip(" " + Join(l, ", ")), ','))) == s
  {
    ListedNonEmpty(s, l);
    PlayersParse(l);
  }

  lemma StatusPlain(ch: Challenge, listing: Listing)
    requires ChallengeOk(ch) && ListsAll(listing)
    ensures '|' !in Status(ch, listing) && '\n' !in Status(ch, listing)
  {
    if !ch.solved && ch.assignees != {} {
      AssigneesListed(ch, listing);
      JoinPlain(listing(ch.assignees));
    }
  }

  lemma StatusReads(ch: Challenge, listing: Listing)
    requires ChallengeOk(ch) && ListsAll(listing)
    ensures StatusChallenge(" " + Status(ch, listing)) == Shown(ch, false)
  {
    var field := " " + Status(ch, listing);
    if ch.solved {
      assert Check in field;
    } else if ch.assignees != {} {
      AssigneesListed(ch, listing);
      JoinPlain(listing(ch.assignees));
      PlayersReadBack(ch.assignees, listing(ch.assignees));
    } else {
      assert Check !in field && Cross in field;
    }
  }

  lemma ChallengeLineKind(name: string, ch: Challenge, listing: Listing)
    requires ChallengeNameOk(name)
    ensures var line := ChallengeLine(name, ch, listing);
      && !StartsWith(line, "-") && !StartsWith(line, "`")
      && !StartsWith(line, Bold) && !StartsWith(line, " ")
  {
    var line := ChallengeLine(name, ch, listing);
    assert line[0] == name[0] by {
      assert line == name + (PadRight(name, 30)[|name|..] + " | " + Status(ch, listing));
    }
    FirstCharDiffers(line, "-");
    FirstCharDiffers(line, "`");
    FirstCharDiffers(line, Bold);
    FirstCharDiffers(line, " ");
  }

  /** Padding adds only spaces. */
  lemma PadAvoids(s: string, n: nat, c: char)
    requires c != ' ' && c !in s
    ensures c !in PadRight(s, n)
  {
    var r := PadRight(s, n);
    forall i | 0 <= i < |r| ensures r[i] != c {
      if i < |s| {
        assert r[i] == r[..|s|][i] == s[i];
      }
    }
  }

  lemma BarRegroup(a: string, b: string)
    ensures a + " | " + b == (a + " ") + ['|'] + (" " + b)
  {
    assert " | " == " " + ['|'] + " ";
  }

  lemma ChallengeLineFields(name: string, ch: Challenge, listing: Listing)
    requires ChallengeNameOk(name) && ChallengeOk(ch) && ListsAll(listing)
    ensures var line := ChallengeLine(name, ch, listing);
      && '\n' !in line
      && Split(line, '|') == [PadRight(name, 30) + " ", " " + Status(ch, listing)]
  {
    var status := Status(ch, listing);
    var f0 := PadRight(name, 30) + " ";
    var f1 := " " + status;
    BarRegroup(PadRight(name, 30), status);
    StatusPlain(ch, listing);
    PadAvoids(name, 30, '|');
    PadAvoids(name, 30, '\n');
    SplitTwo(f0, '|', f1);
  }

  lemma ChallengeNameField(name: string)
    requires FieldOk(name)
    ensures Strip(PadRight(name, 30) + " ") == name
  {
    var pad := Repeat(' ', if |name| < 30 then 30 - |name| else 0);
    assert PadRight(name, 30) == name + pad;
    PaddedName([], name, pad);
    assert [] + (name + pad) == name + pad;
  }

  /** A challenge line reads back as its name and, for its status, the challenge as shown. */
  lemma ChallengeLineReads(name: string, ch: Challenge, listing: Listing)
    requires ChallengeNameOk(name) && ChallengeOk(ch) && ListsAll(listing)
    ensures var line := ChallengeLine(name, ch, listing);
      && !StartsWith(line, "-") && !StartsWith(line, "`")
      && !StartsWith(line, Bold) && !StartsWith(line, " ")
      && '\n' !in line
      && |Split(line, '|')| == 2
      && Strip(Split(line, '|')[0]) == name
      && StatusChallenge(Split(line, '|')[1]) == Shown(ch, false)
  {
    ChallengeLineKind(name, ch, listing);
    ChallengeLineFields(name, ch, listing);
    StatusReads(ch, listing);
    ChallengeNameField(name);
  }

  lemma StartsWithChar(s: string, c: char)
    requires s != [] && s[0] == c
    ensures StartsWith(s, [c])
  {
    assert s[..1] == [c];
  }

  lemma VulnLineNoBreak(name: string, v: Vuln)
    requires FieldOk(name)
    ensures '\n' !in VulnLine(name, v)
  {
    SpacesAvoid(Repeat(' ', 10), '\n');
    PadAvoids(name, 20, '\n');
    GlyphChars(v.patch);
    GlyphChars(v.exploit);
  }

  lemma VulnLineKind(name: string, v: Vuln)
    requires FieldOk(name)
    ensures var line := VulnLine(name, v);
      && StartsWith(line, " ") && !StartsWith(line, Bold)
      && !StartsWith(line, "-") && !StartsWith(line, "`")
      && '\n' !in line
  {
    var line := VulnLine(name, v);
    assert line[0] == ' ';
    StartsWithChar(line, ' ');
    FirstCharDiffers(line, Bold);
    FirstCharDiffers(line, "-");
    FirstCharDiffers(line, "`");
    VulnLineNoBreak(name, v);
  }

  lemma VulnLineShape(name: string, v: Vuln)
    ensures VulnLine(name, v)
         == (Repeat(' ', 10) + PadRight(name, 20) + " ") + ['|']
            + ((" patch: " + Glyph(v.patch) + " ") + ['|'] + (" exploit: " + Glyph(v.exploit)))
  {
    assert " | patch: " == " " + ['|'] + " patch: ";
    assert " | exploit: " == " " + ['|'] + " exploit: ";
    Regroup(Repeat(' ', 10) + PadRight(name, 20), " patch: ", Glyph(v.patch), " exploit: ", Glyph(v.exploit));
  }

  lemma SpacesAvoid(s: string, c: char)
    requires c != ' ' && forall i :: 0 <= i < |s| ==> s[i] == ' '
    ensures c !in s
  {
    assert forall i :: 0 <= i < |s| ==> s[i] != c;
  }

  lemma VulnNameField(name: string)
    requires FieldOk(name)
    ensures var f0 := Repeat(' ', 10) + PadRight(name, 20) + " ";
      '|' !in f0 && Strip(f0) == name
  {
    var indent := Repeat(' ', 10);
    var pad := Repeat(' ', if |name| < 20 then 20 - |name| else 0);
    assert PadRight(name, 20) == name + pad;
    PaddedName(indent, name, pad);
    SpacesAvoid(indent, '|');
    PadAvoids(name, 20, '|');
  }

  lemma VulnFlagFields(v: Vuln)
    ensures var f1 := " patch: " + Glyph(v.patch) + " ";
      '|' !in f1 && (Check in f1 <==> v.patch)
    ensures var f2 := " exploit: " + Glyph(v.exploit);
      '|' !in f2 && (Check in f2 <==> v.exploit)
  {
    GlyphChars(v.patch);
    GlyphChars(v.exploit);
  }

  lemma VulnLineFields(name: string, v: Vuln)
    requires FieldOk(name)
    ensures var line := VulnLine(name, v);
      && |Split(line, '|')| == 3
      && Strip(Split(line, '|')[0]) == name
      && (Check in Split(line, '|')[1] <==> v.patch)
      && (Check in Split(line, '|')[2] <==> v.exploit)
  {
    var f0 := Repeat(' ', 10) + PadRight(name, 20) + " ";
    var f1 := " patch: " + Glyph(v.patch) + " ";
    var f2 := " exploit: " + Glyph(v.exploit);
    VulnLineShape(name, v);
    VulnNameField(name);
    VulnFlagFields(v);
    ThreeFields(f0, f1, f2);
  }

  /** A vuln line reads back as its name and its two flags. */
  lemma VulnLineReads(name: string, v: Vuln)
    requires FieldOk(name)
    ensures var line := VulnLine(name, v);
      && StartsWith(line, " ") && !StartsWith(line, Bold)
      && !StartsWith(line, "-") && !StartsWith(line, "`")
      && '\n' !in line
      && |Split(line, '|')| == 3
      && Strip(Split(line, '|')[0]) == name
      && (Check in Split(line, '|')[1] <==> v.patch)
      && (Check in Split(line, '|')[2] <==> v.exploit)
  {
    VulnLineKind(name, v);
    VulnLineFields(name, v);
  }

  lemma Regroup(x: string, p: string, g1: string, q: string, g2: string)
    ensures x + (" " + ['|'] + p) + g1 + (" " + ['|'] + q) + g2
         == (x + " ") + ['|'] + ((p + g1 + " ") + ['|'] + (q + g2))
  {
  }

  // ---------------------------------------------------------------------------
  // One parser step at a time

  /** The parser's variables right after challenge `name` of `cat` was read and stored
      as `c`, on top of the state `t` it was read in. */
  function After(t: PState, cat: string, name: string, c: Challenge): PState
    requires cat in t.challs && Valid(t.challs[cat])
  {
    t.(chalName := Some(name), chal := Some(c), chalAt := Some((cat, name)),
       challs := t.challs[cat := Put(t.challs[cat], name, c)])
  }

  lemma AfterCoherent(t: PState, cat: string, name: string, c: Challenge)
    requires Coherent(t) && t.cat == Some(cat) && cat in t.challs && Valid(c.vulns)
    ensures Coherent(After(t, cat, name, c))
  {
  }

  lemma HeaderStep(pm: string, st: PState, cat: string)
    requires Coherent(st) && CategoryNameOk(cat)
    ensures Step(pm, st, Header(cat)) == Some(st.(cat := Some(cat), chalName := None))
  {
    HeaderReads(cat);
  }

  lemma ChallengeStepReads(pm: string, t: PState, cat: string, name: string, ch: Challenge, listing: Listing)
    requires Coherent(t) && t.cat == Some(cat) && cat in t.challs
    requires ChallengeNameOk(name) && ChallengeOk(ch) && ListsAll(listing)
    ensures Step(pm, t, ChallengeLine(name, ch, listing)) == Some(After(t, cat, name, Shown(ch, false)))
  {
    ChallengeLineReads(name, ch, listing);
  }

  /** Storing the challenge again where it already is changes nothing. */
  lemma StoreAfter(t: PState, cat: string, name: string, c: Challenge)
    requires Coherent(t) && t.cat == Some(cat) && cat in t.challs && Valid(c.vulns)
    ensures Pending(After(t, cat, name, c))
    ensures Store(After(t, cat, name, c)) == Some(After(t, cat, name, c))
  {
    var w := After(t, cat, name, c);
    var x := Put(t.challs[cat], name, c);
    PutPut(t.challs[cat], name, c, c);
    assert Put(w.challs[cat], name, c) == x;
    assert w.challs[cat := x] == w.challs;
  }

  lemma VulnStepAt(st: PState, line: string, cat: string, name: string, vname: string, v: Vuln)
    requires Coherent(st) && st.chal.Some? && st.chalAt == Some((cat, name))
    requires var parts := Split(line, '|');
      && |parts| == 3 && Strip(parts[0]) == vname
      && (Check in parts[1] <==> v.patch) && (Check in parts[2] <==> v.exploit)
    ensures var c' := st.chal.value.(vulns := Put(st.chal.value.vulns, vname, v));
      VulnStep(st, line) == Some(st.(challs := st.challs[cat := Put(st.challs[cat], name, c')], chal := Some(c')))
  {
    var parts := Split(line, '|');
    assert Vuln(Check in parts[1], Check in parts[2]) == v;
  }

  /** Updating the stored challenge in place is storing the updated one. */
  lemma AfterUpdate(t: PState, cat: string, name: string, c: Challenge, c': Challenge)
    requires cat in t.challs && Valid(t.challs[cat])
    ensures var w := After(t, cat, name, c);
      w.(challs := w.challs[cat := Put(w.challs[cat], name, c')], chal := Some(c')) == After(t, cat, name, c')
  {
    PutPut(t.challs[cat], name, c, c');
  }

  lemma VulnStepUpdates(t: PState, cat: string, name: string, c: Challenge, vname: string, v: Vuln)
    requires Coherent(t) && t.cat == Some(cat) && cat in t.challs && Valid(c.vulns)
    requires FieldOk(vname)
    ensures Coherent(After(t, cat, name, c))
    ensures VulnStep(After(t, cat, name, c), VulnLine(vname, v))
         == Some(After(t, cat, name, c.(vulns := Put(c.vulns, vname, v))))
  {
    AfterCoherent(t, cat, name, c);
    VulnLineFields(vname, v);
    VulnStepAt(After(t, cat, name, c), VulnLine(vname, v), cat, name, vname, v);
    AfterUpdate(t, cat, name, c, c.(vulns := Put(c.vulns, vname, v)));
  }

  /** A vuln line goes into the challenge read last, in attack-defense mode only. */
  lemma VulnStepReads(pm: string, t: PState, cat: string, name: string, c: Challenge, vname: string, v: Vuln)
    requires Coherent(t) && t.cat == Some(cat) && cat in t.challs && Valid(c.vulns)
    requires FieldOk(vname)
    ensures Coherent(After(t, cat, name, c))
    ensures var c' := if pm == AttackDefense then c.(vulns := Put(c.vulns, vname, v)) else c;
      Step(pm, After(t, cat, name, c), VulnLine(vname, v)) == Some(After(t, cat, name, c'))
  {
    AfterCoherent(t, cat, name, c);
    VulnLineKind(vname, v);
    if pm == AttackDefense {
      var c' := c.(vulns := Put(c.vulns, vname, v));
      VulnStepUpdates(t, cat, name, c, vname, v);
      StoreAfter(t, cat, name, c');
    } else {
      StoreAfter(t, cat, name, c);
    }
  }

  // ---------------------------------------------------------------------------
  // Blocks of lines

  /** The first `m` keys of `keys` with their values, as a dict built in that order. */
  function FirstOf<V>(keys: seq<string>, vm: map<string, V>, m: nat): OMap<V>
    requires m <= |keys| && forall k :: k in keys ==> k in vm
  {
    OMap(keys[..m], map k | k in keys[..m] :: vm[k])
  }

  lemma FirstOfNone<V>(keys: seq<string>, vm: map<string, V>)
    requires forall k :: k in keys ==> k in vm
    ensures FirstOf(keys, vm, 0) == Empty()
  {
    assert keys[..0] == [];
    assert FirstOf(keys, vm, 0).vals == map[];
  }

  lemma FirstOfAll<V>(m: OMap<V>)
    requires Valid(m)
    ensures FirstOf(m.keys, m.vals, |m.keys|) == m
  {
    assert m.keys[..|m.keys|] == m.keys;
    assert (map k | k in m.keys :: m.vals[k]) == m.vals;
  }

  lemma NoBreaksAppend(a: seq<string>, b: seq<string>)
    ensures NoBreaks(a + b) <==> NoBreaks(a) && NoBreaks(b)
  {
    if NoBreaks(a) && NoBreaks(b) {
      forall i | 0 <= i < |a + b| ensures '\n' !in (a + b)[i] {
        if i >= |a| {
          assert (a + b)[i] == b[i - |a|];
        }
      }
    }
    if NoBreaks(a + b) {
      forall i | 0 <= i < |a| ensures '\n' !in a[i] {
        assert (a + b)[i] == a[i];
      }
      forall i | 0 <= i < |b| ensures '\n' !in b[i] {
        assert (a + b)[|a| + i] == b[i];
      }
    }
  }

  lemma RunAllOne(pm: string, st: PState, line: string)
    requires Coherent(st)
    ensures RunAll(pm, st, [line]) == Step(pm, st, line)
  {
    assert [line][1..] == [];
  }

  lemma FirstOfValid<V>(keys: seq<string>, vm: map<string, V>, m: nat)
    requires Distinct(keys) && m <= |keys| && forall k :: k in keys ==> k in vm
    ensures Valid(FirstOf(keys, vm, m))
  {
    if m == 0 {
      FirstOfNone(keys, vm);
    } else {
      PutInOrder(keys, vm, m - 1);
    }
  }

  lemma VulnLinesStepAD(t: PState, cat: string, name: string, c: Challenge,
                        keys: seq<string>, vm: map<string, Vuln>, m: nat)
    requires Coherent(t) && t.cat == Some(cat) && cat in t.challs
    requires Distinct(keys) && forall k :: k in keys ==> k in vm
    requires 0 < m <= |keys| && FieldOk(keys[m - 1])
    ensures Coherent(After(t, cat, name, c.(vulns := FirstOf(keys, vm, m - 1))))
    ensures Step(AttackDefense, After(t, cat, name, c.(vulns := FirstOf(keys, vm, m - 1))), VulnLine(keys[m - 1], vm[keys[m - 1]]))
         == Some(After(t, cat, name, c.(vulns := FirstOf(keys, vm, m))))
  {
    var c0 := c.(vulns := FirstOf(keys, vm, m - 1));
    FirstOfValid(keys, vm, m - 1);
    VulnStepReads(AttackDefense, t, cat, name, c0, keys[m - 1], vm[keys[m - 1]]);
    PutInOrder(keys, vm, m - 1);
    assert c0.(vulns := Put(c0.vulns, keys[m - 1], vm[keys[m - 1]])) == c.(vulns := FirstOf(keys, vm, m));
  }

  lemma VulnLinesStep(pm: string, t: PState, cat: string, name: string, c: Challenge,
                      keys: seq<string>, vm: map<string, Vuln>, m: nat)
    requires Coherent(t) && t.cat == Some(cat) && cat in t.challs && c.vulns == Empty()
    requires Distinct(keys) && forall k :: k in keys ==> k in vm
    requires 0 < m <= |keys| && FieldOk(keys[m - 1])
    ensures var c0 := if pm == AttackDefense then c.(vulns := FirstOf(keys, vm, m - 1)) else c;
      var c1 := if pm == AttackDefense then c.(vulns := FirstOf(keys, vm, m)) else c;
      && Coherent(After(t, cat, name, c0))
      && RunAll(pm, After(t, cat, name, c0), [VulnLine(keys[m - 1], vm[keys[m - 1]])]) == Some(After(t, cat, name, c1))
      && '\n' !in VulnLine(keys[m - 1], vm[keys[m - 1]])
  {
    var c0 := if pm == AttackDefense then c.(vulns := FirstOf(keys, vm, m - 1)) else c;
    if pm == AttackDefense {
      VulnLinesStepAD(t, cat, name, c, keys, vm, m);
    } else {
      VulnStepReads(pm, t, cat, name, c, keys[m - 1], vm[keys[m - 1]]);
    }
    AfterCoherent(t, cat, name, c0);
    RunAllOne(pm, After(t, cat, name, c0), VulnLine(keys[m - 1], vm[keys[m - 1]]));
    VulnLineKind(keys[m - 1], vm[keys[m - 1]]);
  }

  /** One more vuln line, read after the ones before it. */
  lemma VulnLinesReadStep(pm: string, t: PState, cat: string, name: string, c: Challenge,
                          keys: seq<string>, vm: map<string, Vuln>, m: nat)
    requires Coherent(t) && t.cat == Some(cat) && cat in t.challs && c.vulns == Empty()
    requires Distinct(keys) && (forall k :: k in keys ==> k in vm)
    requires 0 < m <= |keys| && FieldOk(keys[m - 1])
    requires Coherent(After(t, cat, name, c))
    requires NoBreaks(VulnLines(keys[..m - 1], vm))
    requires RunAll(pm, After(t, cat, name, c), VulnLines(keys[..m - 1], vm))
         == Some(After(t, cat, name, if pm == AttackDefense then c.(vulns := FirstOf(keys, vm, m - 1)) else c))
    ensures NoBreaks(VulnLines(keys[..m], vm))
    ensures RunAll(pm, After(t, cat, name, c), VulnLines(keys[..m], vm))
         == Some(After(t, cat, name, if pm == AttackDefense then c.(vulns := FirstOf(keys, vm, m)) else c))
  {
    var before := VulnLines(keys[..m - 1], vm);
    var line := VulnLine(keys[m - 1], vm[keys[m - 1]]);
    VulnLinesLast(keys, vm, m);
    VulnLinesStep(pm, t, cat, name, c, keys, vm, m);
    RunAllThen(pm, After(t, cat, name, c), before, [line]);
    NoBreaksAppend(before, [line]);
  }

  /** The vuln lines of a challenge go, in order, into the challenge read last. */
  lemma {:induction false} VulnLinesRead(pm: string, t: PState, cat: string, name: string, c: Challenge,
                                         keys: seq<string>, vm: map<string, Vuln>, m: nat)
    requires Coherent(t) && t.cat == Some(cat) && cat in t.challs && c.vulns == Empty()
    requires Distinct(keys) && (forall k :: k in keys ==> k in vm)
    requires (forall i :: 0 <= i < |keys| ==> FieldOk(keys[i])) && m <= |keys|
    ensures Coherent(After(t, cat, name, c))
    ensures NoBreaks(VulnLines(keys[..m], vm))
    ensures RunAll(pm, After(t, cat, name, c), VulnLines(keys[..m], vm))
         == Some(After(t, cat, name, if pm == AttackDefense then c.(vulns := FirstOf(keys, vm, m)) else c))
    decreases m
  {
    AfterCoherent(t, cat, name, c);
    if m == 0 {
      assert keys[..0] == [];
      FirstOfNone(keys, vm);
      assert c.(vulns := FirstOf(keys, vm, 0)) == c;
    } else {
      VulnLinesRead(pm, t, cat, name, c, keys, vm, m - 1);
      VulnLinesReadStep(pm, t, cat, name, c, keys, vm, m);
    }
  }

  lemma ShownKeepsVulns(ch: Challenge, pm: string)
    requires Valid(ch.vulns)
    ensures var c := Shown(ch, false);
      (if pm == AttackDefense then c.(vulns := FirstOf(ch.vulns.keys, ch.vulns.vals, |ch.vulns.keys|)) else c)
      == Shown(ch, pm == AttackDefense)
  {
    FirstOfAll(ch.vulns);
  }

  lemma VulnNamesOk(ch: Challenge)
    requires ChallengeOk(ch)
    ensures forall i :: 0 <= i < |ch.vulns.keys| ==> FieldOk(ch.vulns.keys[i])
  {
    forall i | 0 <= i < |ch.vulns.keys| ensures FieldOk(ch.vulns.keys[i]) {
      assert ch.vulns.keys[i] in ch.vulns.keys;
    }
  }

  /** A challenge's vuln lines, read after its line in attack-defense mode. */
  lemma VulnBlockRead(pm: string, t: PState, cat: string, name: string, ch: Challenge)
    requires Coherent(t) && t.cat == Some(cat) && cat in t.challs && ChallengeOk(ch)
    ensures Coherent(After(t, cat, name, Shown(ch, false)))
    ensures NoBreaks(VulnLines(ch.vulns.keys, ch.vulns.vals))
    ensures RunAll(pm, After(t, cat, name, Shown(ch, false)), VulnLines(ch.vulns.keys, ch.vulns.vals))
         == Some(After(t, cat, name, Shown(ch, pm == AttackDefense)))
  {
    var keys := ch.vulns.keys;
    VulnNamesOk(ch);
    VulnLinesRead(pm, t, cat, name, Shown(ch, false), keys, ch.vulns.vals, |keys|);
    assert keys[..|keys|] == keys;
    ShownKeepsVulns(ch, pm);
  }

  /** A challenge's line and, when shown, its vuln lines read back as the challenge as shown. */
  lemma ChallengeBlockRead(pm: string, ad: bool, t: PState, cat: string, name: string, ch: Challenge, listing: Listing)
    requires Coherent(t) && t.cat == Some(cat) && cat in t.challs
    requires ChallengeNameOk(name) && ChallengeOk(ch) && ListsAll(listing)
    ensures NoBreaks(ChallengeBlock(ad, name, ch, listing))
    ensures RunAll(pm, t, ChallengeBlock(ad, name, ch, listing))
         == Some(After(t, cat, name, Shown(ch, ad && pm == AttackDefense)))
  {
    var line := ChallengeLine(name, ch, listing);
    var rest := if ad then VulnLines(ch.vulns.keys, ch.vulns.vals) else [];
    ChallengeStepReads(pm, t, cat, name, ch, listing);
    ChallengeLineReads(name, ch, listing);
    RunAllOne(pm, t, line);
    RunAllThen(pm, t, [line], rest);
    AfterCoherent(t, cat, name, Shown(ch, false));
    if ad {
      VulnBlockRead(pm, t, cat, name, ch);
    }
    NoBreaksAppend([line], rest);
  }

  lemma FirstOfNext(b: Challs, cat: string, keys: seq<string>, sv: map<string, Challenge>, j: nat)
    requires Distinct(keys) && 0 < j <= |keys| && forall k :: k in keys ==> k in sv
    ensures Valid(FirstOf(keys, sv, j - 1))
    ensures var m := b[cat := FirstOf(keys, sv, j - 1)];
      m[cat := Put(m[cat], keys[j - 1], sv[keys[j - 1]])] == b[cat := FirstOf(keys, sv, j)]
  {
    var f, g := FirstOf(keys, sv, j - 1), FirstOf(keys, sv, j);
    assert Valid(f) by {
      FirstOfValid(keys, sv, j - 1);
    }
    assert Put(f, keys[j - 1], sv[keys[j - 1]]) == g by {
      PutInOrder(keys, sv, j - 1);
    }
    UpdateTwice(b, cat, f, g);
  }

  lemma UpdateTwice<K, V>(b: map<K, V>, k: K, f: V, g: V)
    ensures b[k := f][k := g] == b[k := g]
  {
  }

  /** The stored category after its challenge blocks were read, one more at a time. */
  lemma ChallengeBlockNext(pm: string, ad: bool, st: PState, t: PState, cat: string, om: OMap<Challenge>, listing: Listing, j: nat)
    requires Coherent(st) && cat in st.challs && CategoryOk(om) && ListsAll(listing)
    requires 0 < j <= |om.keys|
    requires Coherent(t) && t.cat == Some(cat)
    requires var sv := ShownCategory(om, ad && pm == AttackDefense).vals;
      t.challs == st.challs[cat := FirstOf(om.keys, sv, j - 1)]
    ensures var sv := ShownCategory(om, ad && pm == AttackDefense).vals;
      var name := om.keys[j - 1];
      var r := RunAll(pm, t, ChallengeBlock(ad, name, om.vals[name], listing));
      && NoBreaks(ChallengeBlock(ad, name, om.vals[name], listing))
      && r.Some? && r.value.cat == Some(cat)
      && r.value.challs == st.challs[cat := FirstOf(om.keys, sv, j)]
  {
    var keep := ad && pm == AttackDefense;
    var sv := ShownCategory(om, keep).vals;
    var name := om.keys[j - 1];
    assert name in om.vals && sv[name] == Shown(om.vals[name], keep);
    ChallengeBlockRead(pm, ad, t, cat, name, om.vals[name], listing);
    FirstOfNext(st.challs, cat, om.keys, sv, j);
  }

  /** A category's challenge blocks go, in order, into that category. */
  lemma {:induction false} ChallengesRead(pm: string, ad: bool, st: PState, cat: string, om: OMap<Challenge>, listing: Listing, j: nat)
    requires Coherent(st) && st.cat == Some(cat) && cat in st.challs && st.challs[cat] == Empty()
    requires CategoryOk(om) && ListsAll(listing) && j <= |om.keys|
    ensures NoBreaks(ChallengeLines(ad, om.keys[..j], om.vals, listing))
    ensures var r := RunAll(pm, st, ChallengeLines(ad, om.keys[..j], om.vals, listing));
      && r.Some? && r.value.cat == Some(cat)
      && r.value.challs == st.challs[cat := FirstOf(om.keys, ShownCategory(om, ad && pm == AttackDefense).vals, j)]
    decreases j
  {
    var sv := ShownCategory(om, ad && pm == AttackDefense).vals;
    if j == 0 {
      assert om.keys[..0] == [];
      FirstOfNone(om.keys, sv);
      assert st.challs[cat := Empty()] == st.challs;
    } else {
      ChallengesRead(pm, ad, st, cat, om, listing, j - 1);
      var before := ChallengeLines(ad, om.keys[..j - 1], om.vals, listing);
      var name := om.keys[j - 1];
      var block := ChallengeBlock(ad, name, om.vals[name], listing);
      ChallengeLinesLast(ad, om.keys, om.vals, listing, j);
      var t := RunAll(pm, st, before).value;
      ChallengeBlockNext(pm, ad, st, t, cat, om, listing, j);
      RunAllThen(pm, st, before, block);
      NoBreaksAppend(before, block);
    }
  }

  lemma RuleSkipped(pm: string, st: PState)
    requires Coherent(st)
    ensures Step(pm, st, Rule) == Some(st) && '\n' !in Rule
  {
    assert Rule[0] == '-';
    assert Rule[..1] == "-";
  }

  /** The separator and the header open the category; nothing is stored yet. */
  lemma CategoryOpens(pm: string, st: PState, cat: string)
    requires Coherent(st) && CategoryNameOk(cat)
    ensures NoBreaks([Rule, Header(cat)])
    ensures RunAll(pm, st, [Rule, Header(cat)]) == Some(st.(cat := Some(cat), chalName := None))
  {
    assert RunAll(pm, st, [Header(cat)]) == Some(st.(cat := Some(cat), chalName := None)) && '\n' !in Header(cat) by {
      HeaderStep(pm, st, cat);
      HeaderKind(cat);
      RunAllOne(pm, st, Header(cat));
    }
    RuleSkipped(pm, st);
    assert [Rule, Header(cat)][1..] == [Header(cat)];
  }

  lemma ShownCategoryAll(om: OMap<Challenge>, keep: bool)
    requires Valid(om)
    ensures FirstOf(om.keys, ShownCategory(om, keep).vals, |om.keys|) == ShownCategory(om, keep)
  {
    FirstOfAll(ShownCategory(om, keep));
  }

  /** The separator and header lines only set the current category. */
  lemma CategoryHead(pm: string, ad: bool, st: PState, cat: string, om: OMap<Challenge>, listing: Listing)
    requires Coherent(st) && CategoryNameOk(cat) && CategoryOk(om)
    ensures var lines := ChallengeLines(ad, om.keys, om.vals, listing);
      && RunAll(pm, st, CategoryBlock(ad, cat, om, listing)) == RunAll(pm, st.(cat := Some(cat), chalName := None), lines)
      && (NoBreaks(CategoryBlock(ad, cat, om, listing)) <==> NoBreaks(lines))
  {
    var lines := ChallengeLines(ad, om.keys, om.vals, listing);
    CategoryOpens(pm, st, cat);
    RunAllThen(pm, st, [Rule, Header(cat)], lines);
    NoBreaksAppend([Rule, Header(cat)], lines);
  }

  /** All of a category's challenge lines, read into its emptied entry. */
  lemma CategoryBody(pm: string, ad: bool, st: PState, cat: string, om: OMap<Challenge>, listing: Listing)
    requires Coherent(st) && st.cat == Some(cat) && cat in st.challs && st.challs[cat] == Empty()
    requires CategoryOk(om) && ListsAll(listing)
    ensures var lines := ChallengeLines(ad, om.keys, om.vals, listing);
      && NoBreaks(lines) && RunAll(pm, st, lines).Some?
      && RunAll(pm, st, lines).value.challs == st.challs[cat := ShownCategory(om, ad && pm == AttackDefense)]
  {
    assert om.keys[..|om.keys|] == om.keys;
    ChallengesRead(pm, ad, st, cat, om, listing, |om.keys|);
    ShownCategoryAll(om, ad && pm == AttackDefense);
  }

  /** A category's block reads back as the category as shown. */
  lemma CategoryRead(pm: string, ad: bool, st: PState, cat: string, om: OMap<Challenge>, listing: Listing)
    requires Coherent(st) && cat in st.challs && st.challs[cat] == Empty()
    requires CategoryNameOk(cat) && CategoryOk(om) && ListsAll(listing)
    ensures NoBreaks(CategoryBlock(ad, cat, om, listing))
    ensures var r := RunAll(pm, st, CategoryBlock(ad, cat, om, listing));
      r.Some? && r.value.challs == st.challs[cat := ShownCategory(om, ad && pm == AttackDefense)]
  {
    CategoryHead(pm, ad, st, cat, om, listing);
    CategoryBody(pm, ad, st.(cat := Some(cat), chalName := None), cat, om, listing);
  }

  // ---------------------------------------------------------------------------
  // The whole board

  /** The first `k` configured categories as shown, the rest still empty. */
  function ShownPart(cats: seq<string>, b: Challs, keep: bool, k: nat): Challs
    requires k <= |cats|
  {
    map c | c in b :: if c in cats[..k] then ShownCategory(b[c], keep) else Empty()
  }

  lemma WellFormedValid(cats: seq<string>, b: Challs)
    requires WellFormed(cats, b)
    ensures BoardValid(b) && forall c :: c in cats ==> c in b
  {
  }

  lemma ShownPartNone(cats: seq<string>, b: Challs, keep: bool)
    requires WellFormed(cats, b)
    ensures ShownPart(cats, b, keep, 0) == Fresh(cats)
  {
    assert cats[..0] == [];
  }

  lemma ShownPartAll(cats: seq<string>, b: Challs, keep: bool)
    requires forall c :: c in b ==> c in cats
    ensures ShownPart(cats, b, keep, |cats|) == ShownBoard(b, keep)
  {
    assert cats[..|cats|] == cats;
  }

  lemma DistinctLast(cats: seq<string>, k: nat)
    requires Distinct(cats) && 0 < k <= |cats|
    ensures cats[k - 1] !in cats[..k - 1]
    ensures forall x :: x in cats[..k] <==> x in cats[..k - 1] || x == cats[k - 1]
  {
    assert forall i :: 0 <= i < k - 1 ==> cats[..k - 1][i] == cats[i] != cats[k - 1];
    assert cats[..k] == cats[..k - 1] + [cats[k - 1]];
  }

  lemma ShownPartNext(cats: seq<string>, b: Challs, keep: bool, k: nat)
    requires Distinct(cats) && 0 < k <= |cats| && cats[k - 1] in b
    ensures ShownPart(cats, b, keep, k - 1)[cats[k - 1]] == Empty()
    ensures ShownPart(cats, b, keep, k - 1)[cats[k - 1] := ShownCategory(b[cats[k - 1]], keep)]
         == ShownPart(cats, b, keep, k)
  {
    DistinctLast(cats, k);
  }

  lemma CategoryNext(pm: string, ad: bool, cats: seq<string>, b: Challs, listing: Listing, k: nat, t: PState)
    requires Distinct(cats) && 0 < k <= |cats| && cats[k - 1] in b && ListsAll(listing)
    requires CategoryNameOk(cats[k - 1]) && CategoryOk(b[cats[k - 1]])
    requires Coherent(t) && t.challs == ShownPart(cats, b, ad && pm == AttackDefense, k - 1)
    ensures var block := CategoryBlock(ad, cats[k - 1], b[cats[k - 1]], listing);
      && NoBreaks(block)
      && RunAll(pm, t, block).Some?
      && RunAll(pm, t, block).value.challs == ShownPart(cats, b, ad && pm == AttackDefense, k)
  {
    ShownPartNext(cats, b, ad && pm == AttackDefense, k);
    CategoryRead(pm, ad, t, cats[k - 1], b[cats[k - 1]], listing);
  }

  lemma CategoryFacts(cats: seq<string>, b: Challs, k: nat)
    requires WellFormed(cats, b) && 0 < k <= |cats|
    ensures cats[k - 1] in b && CategoryNameOk(cats[k - 1]) && CategoryOk(b[cats[k - 1]])
  {
  }

  /** One more category block, read after the ones before it. */
  lemma BoardReadStep(pm: string, ad: bool, cats: seq<string>, b: Challs, listing: Listing, k: nat)
    requires WellFormed(cats, b) && ListsAll(listing) && 0 < k <= |cats|
    requires BoardValid(b) && forall c :: c in cats ==> c in b
    requires NoBreaks(BoardLines(ad, cats[..k - 1], b, listing))
    requires var r := RunAll(pm, Initial(cats), BoardLines(ad, cats[..k - 1], b, listing));
      r.Some? && r.value.challs == ShownPart(cats, b, ad && pm == AttackDefense, k - 1)
    ensures NoBreaks(BoardLines(ad, cats[..k], b, listing))
    ensures var r := RunAll(pm, Initial(cats), BoardLines(ad, cats[..k], b, listing));
      r.Some? && r.value.challs == ShownPart(cats, b, ad && pm == AttackDefense, k)
  {
    var before := BoardLines(ad, cats[..k - 1], b, listing);
    var c := cats[k - 1];
    var block := CategoryBlock(ad, c, b[c], listing);
    BoardLinesLast(ad, cats, b, listing, k);
    var t := RunAll(pm, Initial(cats), before).value;
    CategoryFacts(cats, b, k);
    CategoryNext(pm, ad, cats, b, listing, k, t);
    RunAllThen(pm, Initial(cats), before, block);
    NoBreaksAppend(before, block);
  }

  /** The category blocks go, in the configured order, into the fresh state. */
  lemma {:induction false} BoardRead(pm: string, ad: bool, cats: seq<string>, b: Challs, listing: Listing, k: nat)
    requires WellFormed(cats, b) && ListsAll(listing) && k <= |cats|
    ensures BoardValid(b) && forall c :: c in cats[..k] ==> c in b
    ensures NoBreaks(BoardLines(ad, cats[..k], b, listing))
    ensures var r := RunAll(pm, Initial(cats), BoardLines(ad, cats[..k], b, listing));
      r.Some? && r.value.challs == ShownPart(cats, b, ad && pm == AttackDefense, k)
    decreases k
  {
    WellFormedValid(cats, b);
    if k == 0 {
      assert cats[..0] == [];
      ShownPartNone(cats, b, ad && pm == AttackDefense);
    } else {
      BoardRead(pm, ad, cats, b, listing, k - 1);
      BoardReadStep(pm, ad, cats, b, listing, k);
    }
  }

  lemma FiveRegroup<T>(a: seq<T>, x: seq<T>, u: seq<T>, r: seq<T>, c: seq<T>)
    ensures a + x + u + r + x + c == a + x + (u + (r + x + c))
  {
  }

  /** Text of the posted shape, split at line breaks. */
  lemma FramedLines(first: string, lines: seq<string>, r: string, c: string)
    requires '\n' !in first && '\n' !in r && '\n' !in c && NoBreaks(lines)
    ensures Split(first + "\n" + Unlines(lines) + r + "\n" + c, '\n') == [first] + lines + [r, c]
  {
    var tail := r + "\n" + c;
    FiveRegroup(first, "\n", Unlines(lines), r, c);
    assert "\n" == ['\n'];
    SplitAt(first, '\n', Unlines(lines) + tail);
    SplitUnlines(lines, tail);
    assert r + "\n" + c == r + ['\n'] + c;
    SplitTwo(r, '\n', c);
    assert [first] + (lines + [r, c]) == [first] + lines + [r, c];
  }

  /** The posted text, line by line: the opening fence, the category blocks, the closing
      separator and the closing fence. */
  lemma RenderLayout(mode: string, cats: seq<string>, b: Challs, listing: Listing)
    requires BoardValid(b) && forall c :: c in cats ==> c in b
    requires NoBreaks(BoardLines(mode == AttackDefense, cats, b, listing))
    ensures Split(RenderBoard(mode, cats, b, listing), '\n')
         == [Open] + BoardLines(mode == AttackDefense, cats, b, listing) + [Rule, Close]
  {
    assert '\n' !in Open && '\n' !in Rule && '\n' !in Close;
    FramedLines(Open, BoardLines(mode == AttackDefense, cats, b, listing), Rule, Close);
  }

  lemma FencesSkipped(pm: string, st: PState)
    requires Coherent(st)
    ensures Step(pm, st, Open) == Some(st) && Step(pm, st, Close) == Some(st)
    ensures Run(pm, st, [Rule, Close]) == st.challs
    ensures RunAll(pm, st, [Open]) == Some(st)
  {
    assert Open[..1] == "`" && Close[..1] == "`";
    RuleSkipped(pm, st);
    assert Run(pm, st, [Close]) == st.challs by {
      assert [Close][1..] == [];
    }
    assert [Rule, Close][1..] == [Close];
    RunAllOne(pm, st, Open);
  }

  /** Reading back a posted board restores the state as the board shows it: every
      challenge in its category, in order, with its solved flag, its players unless it
      is solved, and its vulns when both were in attack-defense mode. */
  lemma RoundTrip(renderMode: string, parseMode: string, cats: seq<string>, b: Challs, listing: Listing)
    requires WellFormed(cats, b) && ListsAll(listing)
    ensures BoardValid(b)
    ensures ParseBoard(parseMode, cats, RenderBoard(renderMode, cats, b, listing))
         == ShownBoard(b, renderMode == AttackDefense && parseMode == AttackDefense)
  {
    var ad := renderMode == AttackDefense;
    WellFormedValid(cats, b);
    var lines := BoardLines(ad, cats, b, listing);
    var st := Initial(cats);
    assert RunAll(parseMode, st, lines).Some? && NoBreaks(lines)
        && RunAll(parseMode, st, lines).value.challs == ShownBoard(b, ad && parseMode == AttackDefense) by {
      BoardRead(parseMode, ad, cats, b, listing, |cats|);
      assert cats[..|cats|] == cats;
      ShownPartAll(cats, b, ad && parseMode == AttackDefense);
    }
    RenderLayout(renderMode, cats, b, listing);
    var sF := RunAll(parseMode, st, lines).value;
    FencesSkipped(parseMode, st);
    FencesSkipped(parseMode, sF);
    RunAllThen(parseMode, st, [Open], lines);
    RunThen(parseMode, st, [Open] + lines, [Rule, Close]);
  }
}
