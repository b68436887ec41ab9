/** The bot's one piece of mutable state, `status_dict` (organizers_bot/bot.py:58), and
    the handlers that change it in place or read it: `start` re-reads the posted board,
    the challenge commands update one entry, `archive` empties every category, and
    `display_status` renders the board. */
module StatusBoard {
  import opened PyStr
  import opened OrderedMap
  import opened Board
  import opened Render
  import opened Parse

  /** A handler's reply and the state it leaves, as the board function `r` that
      specifies it says: its new board on success, and on a raise the board as it was. */
  predicate Follows(r: Result<Challs>, before: Challs, outcome: Result<()>, after: Challs) {
    match r
    case Ok(b) => outcome == Ok(()) && after == b
    case Err(e) => outcome == Err(e) && after == before
  }

  class StatusDict {
    /** `config.mgmt.categories`, fixed for the bot's lifetime. */
    const categories: seq<string>
    /** `status_dict["type"]`: "jeopardy", or "AD" for attack-defense. */
    var kind: string
    /** `status_dict["challs"]` */
    var challs: Challs

    /** Both dict levels well formed, and one entry per configured category. */
    ghost predicate Valid()
      reads this
    {
      BoardValid(challs) && forall c :: c in challs <==> c in categories
    }

    /** `status_dict = {"type": "jeopardy", "challs": {cat: {} for cat in categories}}` */
    constructor (categories: seq<string>)
      ensures Valid() && this.categories == categories
      ensures kind == "jeopardy" && challs == Fresh(categories)
    {
      this.categories := categories;
      kind := "jeopardy";
      challs := Fresh(categories);
    }

    /** `start`: record the type, empty every category, then read back the last board
        posted in the transcript channel, `None` standing for a fetch that raised. The
        loop stops at the first line that raises, keeping what it stored before it. */
    method Start(ctfType: string, transcript: Option<string>)
      modifies this
      ensures Valid() && kind == ctfType
      ensures transcript.None? ==> challs == Fresh(categories)
      ensures transcript.Some? ==> challs == ParseBoard(ctfType, categories, transcript.value)
    {
      kind := ctfType;
      challs := Fresh(categories);
      if transcript.None? {
        return;
      }
      challs := ReadBoard(ctfType, categories, Split(transcript.value, '\n'));
    }

    /** `chal` (bot.py:206): a new entry for the created channel, replacing one of the
        same name. */
    method CreateChallenge(category: string, channel: string) returns (outcome: Result<()>)
      requires Valid()
      modifies this
      ensures Valid() && kind == old(kind)
      ensures Follows(AddChallenge(old(challs), category, channel), old(challs), outcome, challs)
    {
      if category !in challs {
        return Err(UnknownCategory);
      }
      PutValid(challs, category, channel, NewChallenge());
      challs := challs[category := Put(challs[category], channel, NewChallenge())];
      return Ok(());
    }

    /** Replaces the challenge at an entry the caller has looked up. */
    method Update(category: string, channel: string, ch: Challenge)
      requires Valid() && category in challs && channel in challs[category].vals && OrderedMap.Valid(ch.vulns)
      modifies this
      ensures Valid() && kind == old(kind)
      ensures challs == Replace(old(challs), category, channel, ch)
    {
      challs := challs[category := Put(challs[category], channel, ch)];
    }

    /** `solved` (bot.py:237-238): a channel already renamed with ✓ is left alone. */
    method MarkSolved(category: string, channel: string) returns (outcome: Result<()>)
      requires Valid()
      modifies this
      ensures Valid() && kind == old(kind)
      ensures Follows(Solve(old(challs), category, channel), old(challs), outcome, challs)
    {
      if StartsWith(channel, [SolvedMark]) {
        return Ok(());
      }
      if category !in challs {
        return Err(UnknownCategory);
      }
      if channel !in challs[category].vals {
        return Err(UnknownChallenge);
      }
      var ch := challs[category].vals[channel];
      Update(category, channel, ch.(solved := true));
      return Ok(());
    }

    /** `assign` (bot.py:390) */
    method AssignPlayer(category: string, channel: string, player: string) returns (outcome: Result<()>)
      requires Valid()
      modifies this
      ensures Valid() && kind == old(kind)
      ensures Follows(Assign(old(challs), category, channel, player), old(challs), outcome, challs)
    {
      if category !in challs {
        return Err(UnknownCategory);
      }
      if channel !in challs[category].vals {
        return Err(UnknownChallenge);
      }
      var ch := challs[category].vals[channel];
      Update(category, channel, ch.(assignees := ch.assignees + {player}));
      return Ok(());
    }

    /** `unassign` (bot.py:405) */
    method UnassignPlayer(category: string, channel: string, player: string) returns (outcome: Result<()>)
      requires Valid()
      modifies this
      ensures Valid() && kind == old(kind)
      ensures Follows(Unassign(old(challs), category, channel, player), old(challs), outcome, challs)
    {
      if category !in challs {
        return Err(UnknownCategory);
      }
      if channel !in challs[category].vals {
        return Err(UnknownChallenge);
      }
      var ch := challs[category].vals[channel];
      Update(category, channel, ch.(assignees := ch.assignees - {player}));
      return Ok(());
    }

    /** `vuln` (bot.py:139) */
    method AddVuln(category: string, channel: string, vuln: string) returns (outcome: Result<()>)
      requires Valid()
      modifies this
      ensures Valid() && kind == old(kind)
      ensures Follows(Board.AddVuln(old(challs), category, channel, vuln), old(challs), outcome, challs)
    {
      if category !in challs {
        return Err(UnknownCategory);
      }
      if channel !in challs[category].vals {
        return Err(UnknownChallenge);
      }
      var ch := challs[category].vals[channel];
      Update(category, channel, ch.(vulns := Put(ch.vulns, vuln, Board.Vuln(false, false))));
      return Ok(());
    }

    /** `patch` (bot.py:152-157) */
    method MarkPatched(category: string, channel: string, vuln: string) returns (outcome: Result<()>)
      requires Valid()
      modifies this
      ensures Valid() && kind == old(kind)
      ensures Follows(Patch(old(challs), category, channel, vuln), old(challs), outcome, challs)
    {
      outcome := Mark(category, channel, vuln, false);
    }

    /** `exploit` (bot.py:169-174) */
    method MarkExploited(category: string, channel: string, vuln: string) returns (outcome: Result<()>)
      requires Valid()
      modifies this
      ensures Valid() && kind == old(kind)
      ensures Follows(Exploit(old(challs), category, channel, vuln), old(challs), outcome, challs)
    {
      outcome := Mark(category, channel, vuln, true);
    }

    /** Sets one flag of a known vuln; an unknown vuln changes nothing and is answered
        with the names known. */
    method Mark(category: string, channel: string, vuln: string, exploit: bool) returns (outcome: Result<()>)
      requires Valid()
      modifies this
      ensures Valid() && kind == old(kind)
      ensures Follows(MarkVuln(old(challs), category, channel, vuln, exploit), old(challs), outcome, challs)
    {
      if category !in challs {
        return Err(UnknownCategory);
      }
      if channel !in challs[category].vals {
        return Err(UnknownChallenge);
      }
      var ch := challs[category].vals[channel];
      if vuln !in ch.vulns.vals {
        return Err(UnknownVuln(ch.vulns.keys));
      }
      var v := ch.vulns.vals[vuln];
      v := if exploit then v.(exploit := true) else v.(patch := true);
      Update(category, channel, ch.(vulns := Put(ch.vulns, vuln, v)));
      return Ok(());
    }

    /** `archive` (bot.py:261-270): outside a guild nothing happens; otherwise, once the
        channels are moved, every category is emptied. */
    method Archive(inGuild: bool)
      requires Valid()
      modifies this
      ensures Valid() && kind == old(kind)
      ensures inGuild ==> challs == Fresh(categories)
      ensures !inGuild ==> challs == old(challs)
    {
      if !inGuild {
        return;
      }
      challs := Fresh(categories);
    }

    /** `display_status` (bot.py:63-76): the board text it posts every 15 seconds, built
        category by category, with `listing` standing for the order in which Python
        iterates over a set of players. */
    method DisplayStatus(listing: Listing) returns (msg: string)
      requires Valid()
      ensures msg == RenderBoard(kind, categories, challs, listing)
    {
      msg := AppendCategories(Open + "\n", kind == AttackDefense, categories, challs, listing);
      msg := msg + Rule + "\n" + Close;
    }
  }

  /** The separator, header and challenge lines of each category in turn, appended to
      `msg0` as the outer loop of `display_status` appends them. */
  method AppendCategories(msg0: string, ad: bool, cats: seq<string>, board: Challs, listing: Listing) returns (msg: string)
    requires BoardValid(board) && forall c :: c in cats ==> c in board
    ensures msg == msg0 + Unlines(BoardLines(ad, cats, board, listing))
  {
    msg := msg0;
    var k := 0;
    while k < |cats|
      invariant 0 <= k <= |cats|
      invariant msg == msg0 + Unlines(BoardLines(ad, cats[..k], board, listing))
    {
      var cat := cats[k];
      ghost var done := BoardLines(ad, cats[..k], board, listing);
      msg := AppendCategory(msg, ad, cat, board[cat], listing);
      AppendLines(msg0, done, CategoryBlock(ad, cat, board[cat], listing));
      BoardLinesLast(ad, cats, board, listing, k + 1);
      k := k + 1;
    }
    assert cats[..k] == cats;
  }

  /** One category's separator and header lines, then its challenges. */
  method AppendCategory(msg0: string, ad: bool, cat: string, challenges: OMap<Challenge>, listing: Listing) returns (msg: string)
    requires Valid(challenges) && forall n :: n in challenges.vals ==> Valid(challenges.vals[n].vulns)
    ensures msg == msg0 + Unlines(CategoryBlock(ad, cat, challenges, listing))
  {
    ghost var chalLines := ChallengeLines(ad, challenges.keys, challenges.vals, listing);
    var header := Bold + PadRight(Upper(cat), 30) + " " + Plain + "|";
    AppendTwo(msg0, Rule, header);
    msg := msg0 + Rule + "\n" + header + "\n";
    msg := AppendChallenges(msg, ad, challenges, listing);
    AppendLines(msg0, [Rule, header], chalLines);
  }

  /** The lines of one category's challenges, appended to `msg0` as the inner loops
      of `display_status` append them. */
  method AppendChallenges(msg0: string, ad: bool, challenges: OMap<Challenge>, listing: Listing) returns (msg: string)
    requires Valid(challenges) && forall n :: n in challenges.vals ==> Valid(challenges.vals[n].vulns)
    ensures msg == msg0 + Unlines(ChallengeLines(ad, challenges.keys, challenges.vals, listing))
  {
    var keys, vals := challenges.keys, challenges.vals;
    msg := msg0;
    var j := 0;
    while j < |keys|
      invariant 0 <= j <= |keys|
      invariant msg == msg0 + Unlines(ChallengeLines(ad, keys[..j], vals, listing))
    {
      var name := keys[j];
      ghost var done := ChallengeLines(ad, keys[..j], vals, listing);
      msg := AppendChallenge(msg, ad, name, vals[name], listing);
      AppendLines(msg0, done, ChallengeBlock(ad, name, vals[name], listing));
      ChallengeLinesLast(ad, keys, vals, listing, j + 1);
      j := j + 1;
    }
    assert keys[..j] == keys;
  }

  /** One challenge's line, then in attack-defense mode its vuln lines. */
  method AppendChallenge(msg0: string, ad: bool, name: string, ch: Challenge, listing: Listing) returns (msg: string)
    requires Valid(ch.vulns)
    ensures msg == msg0 + Unlines(ChallengeBlock(ad, name, ch, listing))
  {
    var status: string;
    if ch.solved {
      status := [Check];
    } else if ch.assignees != {} {
      status := Join(listing(ch.assignees), ", ");
    } else {
      status := [Cross];
    }
    var line := PadRight(name, 30) + " | " + status;
    assert line == ChallengeLine(name, ch, listing);
    AppendOne(msg0, line);
    msg := msg0 + line + "\n";
    ghost var vulnLines: seq<string> := [];
    if ad {
      vulnLines := VulnLines(ch.vulns.keys, ch.vulns.vals);
      msg := AppendVulns(msg, ch.vulns);
      AppendLines(msg0, [line], vulnLines);
    } else {
      assert [line] + vulnLines == [line];
    }
    assert ChallengeBlock(ad, name, ch, listing) == [line] + vulnLines;
  }

  /** The vuln lines of one challenge, appended to `msg0` in the dict's order. */
  method AppendVulns(msg0: string, vulns: OMap<Vuln>) returns (msg: string)
    requires Valid(vulns)
    ensures msg == msg0 + Unlines(VulnLines(vulns.keys, vulns.vals))
  {
    msg := msg0;
    var m := 0;
    while m < |vulns.keys|
      invariant 0 <= m <= |vulns.keys|
      invariant msg == msg0 + Unlines(VulnLines(vulns.keys[..m], vulns.vals))
    {
      var name := vulns.keys[m];
      var v := vulns.vals[name];
      var line := Repeat(' ', 10) + PadRight(name, 20) + " | patch: " + Glyph(v.patch) + " | exploit: " + Glyph(v.exploit);
      AppendLine(msg0, VulnLines(vulns.keys[..m], vulns.vals), line);
      VulnLinesLast(vulns.keys, vulns.vals, m + 1);
      msg := msg + line + "\n";
      m := m + 1;
    }
    assert vulns.keys[..m] == vulns.keys;
  }

  /** One more line at the end of the text. */
  lemma AppendLine(pre: string, lines: seq<string>, line: string)
    ensures pre + Unlines(lines) + line + "\n" == pre + Unlines(lines + [line])
  {
    UnlinesAppend(lines, [line]);
    assert Unlines([line]) == line + "\n" + Unlines([]);
  }

  /** One line as the whole text after `pre`. */
  lemma AppendOne(pre: string, a: string)
    ensures pre + a + "\n" == pre + Unlines([a])
  {
    assert Unlines([a]) == a + "\n" + Unlines([]);
  }

  /** Two lines as the whole text after `pre`. */
  lemma AppendTwo(pre: string, a: string, b: string)
    ensures pre + a + "\n" + b + "\n" == pre + Unlines([a, b])
  {
    assert [a, b][1..] == [b];
    assert Unlines([b]) == b + "\n" + Unlines([]);
  }

  /** More lines at the end of the text. */
  lemma AppendLines(pre: string, a: seq<string>, b: seq<string>)
    ensures pre + Unlines(a) + Unlines(b) == pre + Unlines(a + b)
  {
    UnlinesAppend(a, b);
  }

  /** The loop of `start` over the lines of the posted board, from the freshly emptied
      categories, inside its `try`: the first line that raises ends it, and what was
      stored before that line stays. It writes into a local copy of `challs` that `Start`
      stores when the loop ends, which nothing can tell apart since no line awaits. */
  method ReadBoard(mode: string, cats: seq<string>, lines: seq<string>) returns (board: Challs)
    ensures board == Run(mode, Initial(cats), lines)
  {
    var st := Initial(cats);
    var i := 0;
    while i < |lines|
      invariant 0 <= i <= |lines| && Coherent(st)
      invariant Run(mode, st, lines[i..]) == Run(mode, Initial(cats), lines)
    {
      RunUnfold(mode, st, lines, i);
      var next := ReadLine(mode, st, lines[i]);
      if next.None? {
        break;
      }
      st := next.value;
      i := i + 1;
    }
    board := st.challs;
  }

  /** One pass of the loop body on `curr_cat`, `curr_chal`, `chal` (with where it is
      stored) and the categories; `None` where the pass raises. */
  method ReadLine(mode: string, st: PState, line: string) returns (next: Option<PState>)
    requires Coherent(st)
    ensures next == Step(mode, st, line)
  {
    var PState(board, cat, chalName, chal, chalAt) := st;
    if StartsWith(line, "-") || StartsWith(line, "`") {
      return Some(st);
    }
    if StartsWith(line, Bold) {
      StepHeader(mode, st, line);
      var name := HeaderName(line);
      if name.None? {
        return None;
      }
      cat := name;
      chalName := None;
    } else if StartsWith(line, " ") {
      StepIndented(mode, st, line);
      if mode == AttackDefense {
        var parts := Split(line, '|');
        if |parts| != 3 || chal.None? {
          return None;
        }
        var ch := chal.value;
        ch := ch.(vulns := Put(ch.vulns, Strip(parts[0]), Vuln(Check in parts[1], Check in parts[2])));
        chal := Some(ch);
        if chalAt.Some? {
          // the stored dict is the same object as `chal`
          var (c, n) := chalAt.value;
          PutValid(board, c, n, ch);
          board := board[c := Put(board[c], n, ch)];
        }
        assert VulnStep(st, line) == Some(PState(board, cat, chalName, chal, chalAt));
      }
    } else {
      StepChallenge(mode, st, line);
      var parts := Split(line, '|');
      if |parts| != 2 {
        return None;
      }
      chalName := Some(Strip(parts[0]));
      chal := Some(StatusChallenge(parts[1]));
      chalAt := None;
    }
    ghost var mid := PState(board, cat, chalName, chal, chalAt);
    assert Step(mode, st, line) == Store(mid);
    if cat.Some? && chalName.Some? {
      if cat.value !in board {
        return None;
      }
      StoreCurrent(mid);
      board := board[cat.value := Put(board[cat.value], chalName.value, chal.value)];
      chalAt := Some((cat.value, chalName.value));
    }
    return Some(PState(board, cat, chalName, chal, chalAt));
  }

  // What one pass of the loop body does, branch by branch.

  lemma StepHeader(mode: string, st: PState, line: string)
    requires Coherent(st) && !StartsWith(line, "-") && !StartsWith(line, "`") && StartsWith(line, Bold)
    ensures Step(mode, st, line) ==
      match HeaderName(line)
      case None => None
      case Some(name) => Store(st.(cat := Some(name), chalName := None))
  {
  }

  lemma StepIndented(mode: string, st: PState, line: string)
    requires Coherent(st) && !StartsWith(line, "-") && !StartsWith(line, "`")
    requires !StartsWith(line, Bold) && StartsWith(line, " ")
    ensures mode != AttackDefense ==> Step(mode, st, line) == Store(st)
    ensures mode == AttackDefense ==>
      Step(mode, st, line) == match VulnStep(st, line) case None => None case Some(next) => Store(next)
  {
  }

  lemma StepChallenge(mode: string, st: PState, line: string)
    requires Coherent(st) && !StartsWith(line, "-") && !StartsWith(line, "`")
    requires !StartsWith(line, Bold) && !StartsWith(line, " ")
    ensures Step(mode, st, line) ==
      match ChallengeStep(st, line)
      case None => None
      case Some(next) => Store(next)
  {
  }

  /** Storing the current challenge under a configured current category. */
  lemma StoreCurrent(st: PState)
    requires Pending(st) && st.cat.Some? && st.chalName.Some? && st.cat.value in st.challs
    ensures var c, n := st.cat.value, st.chalName.value;
      Store(st) == Some(st.(challs := st.challs[c := Put(st.challs[c], n, st.chal.value)], chalAt := Some((c, n))))
  {
  }

  /** The loop's view of `Run`: line `i` is read, then the lines after it. */
  lemma RunUnfold(mode: string, st: PState, lines: seq<string>, i: nat)
    requires Coherent(st) && i < |lines|
    ensures Run(mode, st, lines[i..]) ==
      match Step(mode, st, lines[i])
      case None => st.challs
      case Some(next) => Run(mode, next, lines[i + 1..])
  {
    assert lines[i..][1..] == lines[i + 1..];
  }
}
