/** The line-by-line reading of a posted board back into state that `start`
    performs (organizers_bot/bot.py:97-123), one line at a time. */
module Parse {
  import opened PyStr
  import opened OrderedMap
  import opened Board
  import opened Render

  /** The character sets `lstrip` and `rstrip` receive when a header's name is extracted. */
  const BoldSet: set<char> := set c | c in Bold
  const PlainSet: set<char> := set c | c in Plain

  /** The loop's variables besides the state it writes into: `curr_cat`, `curr_chal`,
      the `chal` object, and where that object is stored, since later vuln lines
      mutate it in place through that alias. */
  datatype PState = PState(
    challs: Challs,
    cat: Option<string>,
    chalName: Option<string>,
    chal: Option<Challenge>,
    chalAt: Option<(string, string)>)

  /** What holds between lines: `curr_chal` is only ever set together with `chal`,
      `chal` sits at `chalAt` when stored, and a current challenge under a current
      category has been stored there. */
  ghost predicate Coherent(st: PState) {
    && Pending(st)
    && (st.cat.Some? && st.chalName.Some? ==> st.cat.value in st.challs)
  }

  /** `Coherent` but for the last clause, which holds again once `Store` has run. */
  ghost predicate Pending(st: PState) {
    && BoardValid(st.challs)
    && (st.chalName.Some? ==> st.chal.Some?)
    && (st.chal.Some? ==> Valid(st.chal.value.vulns))
    && (st.chalAt.Some? ==>
          && st.chal.Some?
          && st.chalAt.value.0 in st.challs
          && st.chalAt.value.1 in st.challs[st.chalAt.value.0].vals)
  }

  /** `chal` is the object stored at `chalAt`, when it is stored. */
  ghost predicate ChalStored(st: PState) {
    st.chalAt.Some? ==>
      && st.chal.Some?
      && st.chalAt.value.0 in st.challs
      && st.chalAt.value.1 in st.challs[st.chalAt.value.0].vals
      && st.challs[st.chalAt.value.0].vals[st.chalAt.value.1] == st.chal.value
  }

  /** The alias the loop relies on: `chal` is the object stored at `chalAt`, and a
      current challenge under a configured current category is stored there. */
  ghost predicate Aliased(st: PState) {
    && ChalStored(st)
    && (st.cat.Some? && st.chalName.Some? && st.cat.value in st.challs ==>
          st.chalAt == Some((st.cat.value, st.chalName.value)))
  }

  /** The state `start` parses into: every configured category empty, nothing current. */
  function Initial(cats: seq<string>): (r: PState)
    ensures Coherent(r) && r.challs == Fresh(cats)
  {
    PState(Fresh(cats), None, None, None, None)
  }

  /** `line.split()[0].lstrip(BOLD).rstrip(PLAIN).lower()`, or `None` where `[0]` raises. */
  function HeaderName(line: string): (r: Option<string>)
    ensures r.None? <==> FirstWord(line).None?
    ensures r.Some? ==> NoCapitals(r.value) && |r.value| <= |FirstWord(line).value|
  {
    match FirstWord(line)
    case None => None
    case Some(w) => Some(Lower(RStrip(LStrip(w, BoldSet), PlainSet)))
  }

  function SetOf(l: seq<string>): (r: set<string>)
    ensures forall x :: x in r <==> x in l
  {
    set x | x in l
  }

  /** The challenge a challenge line's status field describes. */
  function StatusChallenge(field: string): (r: Challenge)
    ensures r.vulns == Empty()
    ensures r.solved <==> Check in field
    ensures r.solved || Cross in field ==> r.assignees == {}
    ensures Check !in field && Cross !in field ==>
      forall p :: p in r.assignees <==> exists f :: f in Split(Strip(field), ',') && Strip(f) == p
  {
    if Check in field then Challenge(true, {}, Empty())
    else if Cross !in field then Challenge(false, SetOf(StripAll(Split(Strip(field), ','))), Empty())
    else NewChallenge()
  }

  /** `status_dict["challs"][curr_cat][curr_chal] = chal` when both are set (a `KeyError`,
      here `None`, for a category that is not configured). */
  function Store(st: PState): (r: Option<PState>)
    requires Pending(st)
    ensures r.Some? ==> Coherent(r.value) && r.value.challs.Keys == st.challs.Keys
    ensures r.None? <==> st.cat.Some? && st.chalName.Some? && st.cat.value !in st.challs
    ensures st.cat.None? || st.chalName.None? ==> r == Some(st)
    ensures r.Some? ==> r.value.cat == st.cat && r.value.chalName == st.chalName && r.value.chal == st.chal
    ensures r.Some? && st.cat.Some? && st.chalName.Some? ==>
      var c, n := st.cat.value, st.chalName.value;
      && r.value.challs[c] == Put(st.challs[c], n, st.chal.value)
      && r.value.chalAt == Some((c, n))
      && forall d :: d in st.challs && d != c ==> r.value.challs[d] == st.challs[d]
  {
    match (st.cat, st.chalName)
    case (Some(c), Some(n)) =>
      if c !in st.challs then None
      else
        PutValid(st.challs, c, n, st.chal.value);
        Some(st.(challs := st.challs[c := Put(st.challs[c], n, st.chal.value)], chalAt := Some((c, n))))
    case _ => Some(st)
  }

  /** A vuln line in attack-defense mode: the fields `name | patch | exploit` go into
      the current `chal`, which changes wherever it is stored. */
  function VulnStep(st: PState, line: string): (r: Option<PState>)
    requires Coherent(st)
    ensures r.Some? ==> Pending(r.value) && r.value.challs.Keys == st.challs.Keys
    ensures r.Some? ==> r.value.cat == st.cat && r.value.chalName == st.chalName
    ensures st.chal.None? || |Split(line, '|')| != 3 ==> r.None?
    ensures st.chal.Some? && |Split(line, '|')| == 3 ==> r.Some?
    ensures r.Some? ==>
      var parts, was := Split(line, '|'), st.chal.value;
      && r.value.chal == Some(was.(vulns := Put(was.vulns, Strip(parts[0]), Vuln(Check in parts[1], Check in parts[2]))))
      && r.value.chalAt == st.chalAt
      && (st.chalAt.None? ==> r.value.challs == st.challs)
      && (st.chalAt.Some? ==>
            && r.value.challs[st.chalAt.value.0].vals[st.chalAt.value.1] == r.value.chal.value
            && OnlyChanged(st.challs, r.value.challs, st.chalAt.value.0, st.chalAt.value.1))
  {
    var parts := Split(line, '|');
    if |parts| != 3 || st.chal.None? then None
    else
      var ch := st.chal.value;
      var ch' := ch.(vulns := Put(ch.vulns, Strip(parts[0]), Vuln(Check in parts[1], Check in parts[2])));
      var challs' :=
        match st.chalAt
        case Some((c, n)) =>
          (PutValid(st.challs, c, n, ch');
           PutOnlyChanged(st.challs, c, n, ch');
           st.challs[c := Put(st.challs[c], n, ch')])
        case None => st.challs;
      Some(st.(challs := challs', chal := Some(ch')))
  }

  /** A challenge line: the fields `name | status` make a new `chal` object, stored nowhere yet. */
  function ChallengeStep(st: PState, line: string): (r: Option<PState>)
    requires Coherent(st)
    ensures r.Some? ==> Pending(r.value) && r.value.challs == st.challs && r.value.cat == st.cat
    ensures r.None? <==> |Split(line, '|')| != 2
    ensures r.Some? ==>
      var parts := Split(line, '|');
      && r.value.chalName == Some(Strip(parts[0]))
      && r.value.chal == Some(StatusChallenge(parts[1]))
      && r.value.chalAt.None?
  {
    var parts := Split(line, '|');
    if |parts| != 2 then None
    else Some(st.(chalName := Some(Strip(parts[0])), chal := Some(StatusChallenge(parts[1])), chalAt := None))
  }

  /** One pass of the loop body; `None` where it raises. */
  function Step(mode: string, st: PState, line: string): (r: Option<PState>)
    requires Coherent(st)
    ensures r.Some? ==> Coherent(r.value) && r.value.challs.Keys == st.challs.Keys
    ensures StartsWith(line, "-") || StartsWith(line, "`") ==> r == Some(st)
  {
    if StartsWith(line, "-") || StartsWith(line, "`") then Some(st)
    else
      var next :=
        if StartsWith(line, Bold) then
          match HeaderName(line)
          case None => None
          case Some(name) => Some(st.(cat := Some(name), chalName := None))
        else if StartsWith(line, " ") then
          if mode == AttackDefense then VulnStep(st, line) else Some(st)
        else ChallengeStep(st, line);
      match next
      case None => None
      case Some(st') => Store(st')
  }

  /** The state left when the loop ends: after the last line, or at the first line that
      raises, with everything stored before it kept (the `try` around the loop). */
  function Run(mode: string, st: PState, lines: seq<string>): (r: Challs)
    requires Coherent(st)
    ensures r.Keys == st.challs.Keys && BoardValid(r)
    decreases |lines|
  {
    if lines == [] then st.challs
    else match Step(mode, st, lines[0])
      case None => st.challs
      case Some(st') => Run(mode, st', lines[1..])
  }

  /** The state after `lines` when none of them raises. */
  function RunAll(mode: string, st: PState, lines: seq<string>): (r: Option<PState>)
    requires Coherent(st)
    ensures r.Some? ==> Coherent(r.value) && r.value.challs.Keys == st.challs.Keys
    decreases |lines|
  {
    if lines == [] then Some(st)
    else match Step(mode, st, lines[0])
      case None => None
      case Some(st') => RunAll(mode, st', lines[1..])
  }

  /** What `start` leaves in `status_dict["challs"]` after reading `text` in mode `mode`. */
  function ParseBoard(mode: string, cats: seq<string>, text: string): (r: Challs)
    ensures forall c :: c in r <==> c in cats
    ensures BoardValid(r)
  {
    Run(mode, Initial(cats), Split(text, '\n'))
  }

  /** The first line of `a + b`, when `a` reads without a raise. */
  lemma RunCons(mode: string, st: PState, a: seq<string>, b: seq<string>)
    requires Coherent(st) && a != [] && RunAll(mode, st, a).Some?
    ensures Step(mode, st, a[0]).Some?
    ensures var n := Step(mode, st, a[0]).value;
      && RunAll(mode, st, a) == RunAll(mode, n, a[1..])
      && RunAll(mode, st, a + b) == RunAll(mode, n, a[1..] + b)
      && Run(mode, st, a + b) == Run(mode, n, a[1..] + b)
  {
    assert (a + b)[0] == a[0] && (a + b)[1..] == a[1..] + b;
  }

  /** Reading `a + b` without a raise is reading `a`, then `b` from where `a` left off. */
  lemma {:induction false} RunAllThen(mode: string, st: PState, a: seq<string>, b: seq<string>)
    requires Coherent(st) && RunAll(mode, st, a).Some?
    ensures RunAll(mode, st, a + b) == RunAll(mode, RunAll(mode, st, a).value, b)
    decreases |a|
  {
    if a == [] {
      assert a + b == b;
    } else {
      RunCons(mode, st, a, b);
      RunAllThen(mode, Step(mode, st, a[0]).value, a[1..], b);
    }
  }

  /** The same for the parse that stops at a raise: a prefix that does not raise
      hands its state on to the rest. */
  lemma {:induction false} RunThen(mode: string, st: PState, a: seq<string>, b: seq<string>)
    requires Coherent(st) && RunAll(mode, st, a).Some?
    ensures Run(mode, st, a + b) == Run(mode, RunAll(mode, st, a).value, b)
    decreases |a|
  {
    if a == [] {
      assert a + b == b;
    } else {
      RunCons(mode, st, a, b);
      RunThen(mode, Step(mode, st, a[0]).value, a[1..], b);
    }
  }

  /** The first line that raises ends the parse and keeps what was stored before it. */
  lemma ParseStopsAt(mode: string, st: PState, a: seq<string>, bad: string, rest: seq<string>)
    requires Coherent(st) && RunAll(mode, st, a).Some?
    requires Step(mode, RunAll(mode, st, a).value, bad).None?
    ensures Run(mode, st, a + [bad] + rest) == RunAll(mode, st, a).value.challs
  {
    assert a + [bad] + rest == a + ([bad] + rest);
    RunThen(mode, st, a, [bad] + rest);
  }

  /** A challenge line before any category header is read but not stored. */
  lemma ChallengeBeforeHeader(mode: string, st: PState, line: string)
    requires Coherent(st) && st.cat.None?
    requires !StartsWith(line, "-") && !StartsWith(line, "`")
    requires !StartsWith(line, Bold) && !StartsWith(line, " ")
    ensures Step(mode, st, line).Some? <==> |Split(line, '|')| == 2
    ensures Step(mode, st, line).Some? ==> Step(mode, st, line).value.challs == st.challs
  {
  }

  /** Under a header naming a category that is not configured, the next challenge line raises. */
  lemma UnknownCategoryStops(mode: string, st: PState, line: string)
    requires Coherent(st) && st.cat.Some? && st.cat.value !in st.challs
    requires !StartsWith(line, "-") && !StartsWith(line, "`")
    requires !StartsWith(line, Bold) && !StartsWith(line, " ")
    ensures Step(mode, st, line).None?
  {
  }

  /** A vuln line in attack-defense mode with no challenge line before it raises. */
  lemma VulnWithoutChallengeStops(st: PState, line: string)
    requires Coherent(st) && st.chal.None?
    requires StartsWith(line, " ") && !StartsWith(line, "-") && !StartsWith(line, "`")
    ensures Step(AttackDefense, st, line).None?
  {
    assert !StartsWith(line, Bold) by {
      assert line[0] == ' ' && Bold[0] == '\U{1B}';
    }
  }

  lemma GarbageLines()
    ensures Split(" garbage\nnotaline", '\n') == [" garbage", "notaline"]
  {
    SplitTwo(" garbage", '\n', "notaline");
    assert " garbage\nnotaline" == " garbage" + ['\n'] + "notaline";
  }

  /** " garbage" is a vuln line without a challenge in attack-defense mode, and skipped otherwise. */
  lemma GarbageFirst(mode: string, st: PState)
    requires Coherent(st) && st.chal.None?
    ensures mode == AttackDefense ==> Step(mode, st, " garbage").None?
    ensures mode != AttackDefense ==> Step(mode, st, " garbage") == Some(st)
  {
    var first := " garbage";
    assert StartsWith(first, " ") by { assert first[..1] == " "; }
    FirstCharDiffers(first, "-");
    FirstCharDiffers(first, "`");
    FirstCharDiffers(first, Bold);
    if mode == AttackDefense {
      assert VulnStep(st, first).None?;
    }
  }

  /** "notaline" is a challenge line without a `|`. */
  lemma GarbageSecond(mode: string, st: PState)
    requires Coherent(st)
    ensures Step(mode, st, "notaline").None?
  {
    var second := "notaline";
    FirstCharDiffers(second, Bold);
    FirstCharDiffers(second, " ");
    FirstCharDiffers(second, "-");
    FirstCharDiffers(second, "`");
    SplitNoSep(second, '|');
    assert ChallengeStep(st, second).None?;
  }

  /** Unparsable text leaves every configured category empty, and raises nothing. */
  lemma GarbageLeavesFresh(mode: string, cats: seq<string>)
    ensures ParseBoard(mode, cats, " garbage\nnotaline") == Fresh(cats)
  {
    var lines := [" garbage", "notaline"];
    GarbageLines();
    var st := Initial(cats);
    GarbageFirst(mode, st);
    GarbageSecond(mode, st);
    assert lines[1..] == ["notaline"];
    assert ParseBoard(mode, cats, " garbage\nnotaline") == Run(mode, st, lines);
  }

  lemma InitialAliased(cats: seq<string>)
    ensures Aliased(Initial(cats))
  {
  }

  /** Storing the current challenge, or nothing, leaves `chal` stored at `chalAt`. */
  lemma StoreAliased(st: PState)
    requires Pending(st) && ChalStored(st) && Store(st).Some?
    ensures Aliased(Store(st).value)
  {
  }

  /** Every line that does not raise keeps the alias. */
  lemma StepAliased(mode: string, st: PState, line: string)
    requires Coherent(st) && Aliased(st) && Step(mode, st, line).Some?
    ensures Aliased(Step(mode, st, line).value)
  {
    if StartsWith(line, "-") || StartsWith(line, "`") {
    } else if StartsWith(line, Bold) {
      var next := st.(cat := HeaderName(line), chalName := None);
      assert Step(mode, st, line) == Store(next);
      StoreAliased(next);
    } else if StartsWith(line, " ") && mode == AttackDefense {
      var next := VulnStep(st, line).value;
      assert Step(mode, st, line) == Store(next);
      StoreAliased(next);
    } else if StartsWith(line, " ") {
      assert Step(mode, st, line) == Store(st);
      StoreAliased(st);
    } else {
      var next := ChallengeStep(st, line).value;
      assert Step(mode, st, line) == Store(next);
      StoreAliased(next);
    }
  }

  /** A header line makes its name the current category and clears the current challenge. */
  lemma HeaderLine(mode: string, st: PState, header: string)
    requires Coherent(st) && StartsWith(header, Bold) && HeaderName(header).Some?
    ensures Step(mode, st, header) == Some(st.(cat := HeaderName(header), chalName := None))
  {
    assert header[0] == Bold[0] by { assert header[..|Bold|][0] == header[0]; }
    FirstCharDiffers(header, "-");
    FirstCharDiffers(header, "`");
  }

  /** With no current challenge name, an attack-defense vuln line only updates `chal`. */
  lemma IndentedLine(st: PState, line: string)
    requires Coherent(st) && st.chalName.None? && StartsWith(line, " ")
    ensures Step(AttackDefense, st, line) == VulnStep(st, line)
  {
    assert line[0] == ' ' by { assert line[..1][0] == line[0]; }
    FirstCharDiffers(line, "-");
    FirstCharDiffers(line, "`");
    FirstCharDiffers(line, Bold);
  }

  /** In attack-defense mode a vuln line after a category header still lands in the
      challenge stored under the previous category: `chal` is the same object. */
  lemma HeaderThenVuln(st: PState, header: string, line: string)
    requires Coherent(st) && Aliased(st) && st.chalAt.Some?
    requires StartsWith(header, Bold) && HeaderName(header).Some?
    requires StartsWith(line, " ") && |Split(line, '|')| == 3
    ensures Step(AttackDefense, st, header).Some?
    ensures var h := Step(AttackDefense, st, header).value;
      var c, n, parts := st.chalAt.value.0, st.chalAt.value.1, Split(line, '|');
      var was := st.challs[c].vals[n];
      && h.cat == HeaderName(header) && h.chalName.None?
      && Step(AttackDefense, h, line).Some?
      && var after := Step(AttackDefense, h, line).value.challs;
      && OnlyChanged(st.challs, after, c, n)
      && c in after && n in after[c].vals
      && after[c].vals[n] == was.(vulns := Put(was.vulns, Strip(parts[0]), Vuln(Check in parts[1], Check in parts[2])))
  {
    var h := st.(cat := HeaderName(header), chalName := None);
    HeaderLine(AttackDefense, st, header);
    IndentedLine(h, line);
  }
}
