/** The competition state `status_dict["challs"]` holds, and what each
    slash-command handler does to it (organizers_bot/bot.py). */
module Board {
  import opened PyStr
  import opened OrderedMap

  /** `{"patch": ..., "exploit": ...}` */
  datatype Vuln = Vuln(patch: bool, exploit: bool)

  /** `{"solved": ..., "assigned": set(...), "vulns": {...}}` */
  datatype Challenge = Challenge(solved: bool, assignees: set<string>, vulns: OMap<Vuln>)

  /** `status_dict["challs"]`: category name to the challenges under it. */
  type Challs = map<string, OMap<Challenge>>

  /** A `KeyError` from indexing the dict, or a vuln that `patch`/`exploit` cannot find
      (the handler then replies with the names it knows). */
  datatype Error = UnknownCategory | UnknownChallenge | UnknownVuln(known: seq<string>)

  datatype Result<T> = Ok(value: T) | Err(error: Error)

  /** The ✓ glyph a solved challenge's channel name starts with. */
  const SolvedMark: char := '\U{2713}'

  function NewChallenge(): (r: Challenge)
    ensures !r.solved && r.assignees == {} && r.vulns == Empty()
  {
    Challenge(false, {}, Empty())
  }

  /** Both levels of ordered maps well formed. */
  ghost predicate BoardValid(b: Challs) {
    forall c :: c in b ==> Valid(b[c]) && forall n :: n in b[c].vals ==> Valid(b[c].vals[n].vulns)
  }

  /** `{cat: {} for cat in categories}`: what `start` and `archive` reset the state to. */
  function Fresh(cats: seq<string>): (r: Challs)
    ensures forall c :: c in r <==> c in cats
    ensures forall c :: c in r ==> r[c] == Empty()
    ensures BoardValid(r)
  {
    map c | c in cats :: Empty()
  }

  /** `challs[cat][name]`, with the `KeyError`s it can raise. */
  function Lookup(b: Challs, cat: string, name: string): (r: Result<Challenge>)
    ensures r.Ok? <==> cat in b && name in b[cat].vals
    ensures r.Ok? ==> r.value == b[cat].vals[name]
    ensures r.Err? ==> r.error == if cat in b then UnknownChallenge else UnknownCategory
  {
    if cat !in b then Err(UnknownCategory)
    else if name !in b[cat].vals then Err(UnknownChallenge)
    else Ok(b[cat].vals[name])
  }

  /** The state after an update of the entry `(cat, name)`: the categories, every
      category's challenge order and every other challenge are as before. */
  ghost predicate OnlyChanged(b: Challs, r: Challs, cat: string, name: string) {
    && r.Keys == b.Keys
    && (forall c :: c in b ==> r[c].keys == b[c].keys && r[c].vals.Keys == b[c].vals.Keys)
    && (forall c, n :: c in b && n in b[c].vals && (c != cat || n != name) ==>
          r[c].vals[n] == b[c].vals[n])
  }

  /** Stores `ch` at an existing entry `(cat, name)`. */
  function Replace(b: Challs, cat: string, name: string, ch: Challenge): (r: Challs)
    requires BoardValid(b) && cat in b && name in b[cat].vals
    requires Valid(ch.vulns)
    ensures BoardValid(r) && OnlyChanged(b, r, cat, name)
    ensures r[cat].vals[name] == ch
  {
    PutValid(b, cat, name, ch);
    PutOnlyChanged(b, cat, name, ch);
    b[cat := Put(b[cat], name, ch)]
  }

  /** Storing a well-formed challenge keeps the board well formed. */
  lemma PutValid(b: Challs, cat: string, name: string, ch: Challenge)
    requires BoardValid(b) && cat in b && Valid(ch.vulns)
    ensures BoardValid(b[cat := Put(b[cat], name, ch)])
  {
    var om := Put(b[cat], name, ch);
    forall n | n in om.vals
      ensures Valid(om.vals[n].vulns)
    {
      if n != name {
        assert om.vals[n] == b[cat].vals[n];
      }
    }
    var r := b[cat := om];
    forall c | c in r
      ensures Valid(r[c]) && forall n :: n in r[c].vals ==> Valid(r[c].vals[n].vulns)
    {
      if c != cat {
        assert r[c] == b[c];
      }
    }
  }

  lemma PutOnlyChanged(b: Challs, cat: string, name: string, ch: Challenge)
    requires BoardValid(b) && cat in b && name in b[cat].vals
    ensures OnlyChanged(b, b[cat := Put(b[cat], name, ch)], cat, name)
  {
    var om := Put(b[cat], name, ch);
    var r := b[cat := om];
    forall c | c in b
      ensures r[c].keys == b[c].keys && r[c].vals.Keys == b[c].vals.Keys
    {
      if c == cat {
        assert om.vals.Keys == b[cat].vals.Keys;
      }
    }
  }

  /** `chal`: `challs[category][name] = {"solved": False, "assigned": set(), "vulns": {}}`
      (bot.py:206). */
  function AddChallenge(b: Challs, cat: string, name: string): (r: Result<Challs>)
    requires BoardValid(b)
    ensures r.Err? <==> cat !in b
    ensures r.Err? ==> r.error == UnknownCategory
    ensures r.Ok? ==> BoardValid(r.value) && r.value.Keys == b.Keys && name in r.value[cat].vals
    ensures r.Ok? ==> r.value[cat].vals[name] == NewChallenge()
    ensures r.Ok? ==> r.value[cat].keys == if name in b[cat].vals then b[cat].keys else b[cat].keys + [name]
    ensures r.Ok? ==> forall c :: c in b && c != cat ==> r.value[c] == b[c]
    ensures r.Ok? ==> forall n :: n in b[cat].vals && n != name ==> r.value[cat].vals[n] == b[cat].vals[n]
  {
    if cat !in b then Err(UnknownCategory)
    else
      PutValid(b, cat, name, NewChallenge());
      Ok(b[cat := Put(b[cat], name, NewChallenge())])
  }

  /** `solved` (bot.py:237-238): nothing happens in a channel whose name already
      starts with ✓; otherwise the challenge named like the channel is marked solved. */
  function Solve(b: Challs, cat: string, channel: string): (r: Result<Challs>)
    requires BoardValid(b)
    ensures StartsWith(channel, [SolvedMark]) ==> r == Ok(b)
    ensures !StartsWith(channel, [SolvedMark]) ==> (r.Ok? <==> Lookup(b, cat, channel).Ok?)
    ensures r.Err? ==> r.error == Lookup(b, cat, channel).error
    ensures r.Ok? && !StartsWith(channel, [SolvedMark]) ==>
      && BoardValid(r.value) && OnlyChanged(b, r.value, cat, channel)
      && r.value[cat].vals[channel] == b[cat].vals[channel].(solved := true)
  {
    if StartsWith(channel, [SolvedMark]) then Ok(b)
    else match Lookup(b, cat, channel)
      case Err(e) => Err(e)
      case Ok(ch) => Ok(Replace(b, cat, channel, ch.(solved := true)))
  }

  /** `assign` (bot.py:390): `assigned.add(player)`. */
  function Assign(b: Challs, cat: string, name: string, player: string): (r: Result<Challs>)
    requires BoardValid(b)
    ensures r.Ok? <==> Lookup(b, cat, name).Ok?
    ensures r.Err? ==> r.error == Lookup(b, cat, name).error
    ensures r.Ok? ==>
      && BoardValid(r.value) && OnlyChanged(b, r.value, cat, name)
      && r.value[cat].vals[name] == b[cat].vals[name].(assignees := b[cat].vals[name].assignees + {player})
  {
    match Lookup(b, cat, name)
    case Err(e) => Err(e)
    case Ok(ch) => Ok(Replace(b, cat, name, ch.(assignees := ch.assignees + {player})))
  }

  /** `unassign` (bot.py:405): `assigned.discard(player)`, a no-op for an absent name. */
  function Unassign(b: Challs, cat: string, name: string, player: string): (r: Result<Challs>)
    requires BoardValid(b)
    ensures r.Ok? <==> Lookup(b, cat, name).Ok?
    ensures r.Err? ==> r.error == Lookup(b, cat, name).error
    ensures r.Ok? ==>
      && BoardValid(r.value) && OnlyChanged(b, r.value, cat, name)
      && r.value[cat].vals[name] == b[cat].vals[name].(assignees := b[cat].vals[name].assignees - {player})
  {
    match Lookup(b, cat, name)
    case Err(e) => Err(e)
    case Ok(ch) => Ok(Replace(b, cat, name, ch.(assignees := ch.assignees - {player})))
  }

  /** `vuln` (bot.py:139): `vulns[vuln] = {"patch": False, "exploit": False}`,
      overwriting an existing entry. */
  function AddVuln(b: Challs, cat: string, name: string, vuln: string): (r: Result<Challs>)
    requires BoardValid(b)
    ensures r.Ok? <==> Lookup(b, cat, name).Ok?
    ensures r.Err? ==> r.error == Lookup(b, cat, name).error
    ensures r.Ok? ==> Lookup(b, cat, name).Ok? && BoardValid(r.value) && OnlyChanged(b, r.value, cat, name)
    ensures r.Ok? ==>
      var was, now := b[cat].vals[name], r.value[cat].vals[name];
      && now.solved == was.solved && now.assignees == was.assignees
      && now.vulns.vals == was.vulns.vals[vuln := Vuln(false, false)]
      && |was.vulns.keys| <= |now.vulns.keys| && now.vulns.keys[..|was.vulns.keys|] == was.vulns.keys
  {
    match Lookup(b, cat, name)
    case Err(e) => Err(e)
    case Ok(ch) => Ok(Replace(b, cat, name, ch.(vulns := Put(ch.vulns, vuln, Vuln(false, false)))))
  }

  /** `patch` and `exploit` (bot.py:152-157, 169-174): set one flag of an existing vuln;
      an unknown vuln leaves the state alone and reports the known names in order. */
  function MarkVuln(b: Challs, cat: string, name: string, vuln: string, exploit: bool): (r: Result<Challs>)
    requires BoardValid(b)
    ensures r.Ok? <==> Lookup(b, cat, name).Ok? && vuln in b[cat].vals[name].vulns.vals
    ensures Lookup(b, cat, name).Err? ==> r == Err(Lookup(b, cat, name).error)
    ensures Lookup(b, cat, name).Ok? && vuln !in b[cat].vals[name].vulns.vals ==>
      r == Err(UnknownVuln(b[cat].vals[name].vulns.keys))
    ensures r.Ok? ==> Lookup(b, cat, name).Ok? && BoardValid(r.value) && OnlyChanged(b, r.value, cat, name)
    ensures r.Ok? ==>
      var was, now := b[cat].vals[name], r.value[cat].vals[name];
      && vuln in was.vulns.vals
      && now.solved == was.solved && now.assignees == was.assignees
      && now.vulns.keys == was.vulns.keys
      && now.vulns.vals == was.vulns.vals[vuln :=
           if exploit then was.vulns.vals[vuln].(exploit := true)
           else was.vulns.vals[vuln].(patch := true)]
  {
    match Lookup(b, cat, name)
    case Err(e) => Err(e)
    case Ok(ch) =>
      if vuln !in ch.vulns.vals then Err(UnknownVuln(ch.vulns.keys))
      else
        var v := ch.vulns.vals[vuln];
        var v' := if exploit then v.(exploit := true) else v.(patch := true);
        Ok(Replace(b, cat, name, ch.(vulns := Put(ch.vulns, vuln, v'))))
  }

  /** `/patch` sets the patch flag of an existing vuln and keeps its exploit flag. */
  function Patch(b: Challs, cat: string, name: string, vuln: string): (r: Result<Challs>)
    requires BoardValid(b)
    ensures r.Ok? <==> Lookup(b, cat, name).Ok? && vuln in b[cat].vals[name].vulns.vals
    ensures r.Ok? ==>
      && OnlyChanged(b, r.value, cat, name)
      && cat in r.value && name in r.value[cat].vals && vuln in r.value[cat].vals[name].vulns.vals
      && r.value[cat].vals[name].vulns.vals[vuln] == Vuln(true, b[cat].vals[name].vulns.vals[vuln].exploit)
  {
    MarkVuln(b, cat, name, vuln, false)
  }

  /** `/exploit` sets the exploit flag of an existing vuln and keeps its patch flag. */
  function Exploit(b: Challs, cat: string, name: string, vuln: string): (r: Result<Challs>)
    requires BoardValid(b)
    ensures r.Ok? <==> Lookup(b, cat, name).Ok? && vuln in b[cat].vals[name].vulns.vals
    ensures r.Ok? ==>
      && OnlyChanged(b, r.value, cat, name)
      && cat in r.value && name in r.value[cat].vals && vuln in r.value[cat].vals[name].vulns.vals
      && r.value[cat].vals[name].vulns.vals[vuln] == Vuln(b[cat].vals[name].vulns.vals[vuln].patch, true)
  {
    MarkVuln(b, cat, name, vuln, true)
  }

  /** Writing the same entry twice keeps only the second write. */
  lemma ReplaceTwice(b: Challs, cat: string, name: string, x: Challenge, y: Challenge)
    requires BoardValid(b) && cat in b && name in b[cat].vals
    requires Valid(x.vulns) && Valid(y.vulns)
    ensures Replace(Replace(b, cat, name, x), cat, name, y) == Replace(b, cat, name, y)
  {
    PutPut(b[cat], name, x, y);
    assert b[cat := Put(b[cat], name, x)][cat := Put(Put(b[cat], name, x), name, y)]
        == b[cat := Put(b[cat], name, y)];
  }

  /** Writing back what an entry holds changes nothing. */
  lemma ReplaceSame(b: Challs, cat: string, name: string)
    requires BoardValid(b) && cat in b && name in b[cat].vals
    ensures Replace(b, cat, name, b[cat].vals[name]) == b
  {
    PutSame(b[cat], name);
    assert b[cat := b[cat]] == b;
  }

  /** Marking a challenge solved twice is marking it once. */
  lemma SolveIdempotent(b: Challs, cat: string, channel: string)
    requires BoardValid(b) && Solve(b, cat, channel).Ok?
    ensures Solve(Solve(b, cat, channel).value, cat, channel) == Solve(b, cat, channel)
  {
    if !StartsWith(channel, [SolvedMark]) {
      var ch := b[cat].vals[channel];
      ReplaceTwice(b, cat, channel, ch.(solved := true), ch.(solved := true));
    }
  }

  /** Assigning a player who is already assigned changes nothing. */
  lemma AssignIdempotent(b: Challs, cat: string, name: string, player: string)
    requires BoardValid(b) && Assign(b, cat, name, player).Ok?
    ensures Assign(Assign(b, cat, name, player).value, cat, name, player) == Assign(b, cat, name, player)
  {
    var ch := b[cat].vals[name];
    var ch' := ch.(assignees := ch.assignees + {player});
    assert ch'.(assignees := ch'.assignees + {player}) == ch';
    ReplaceTwice(b, cat, name, ch', ch');
  }

  /** Unassigning a player who is not assigned changes nothing. */
  lemma UnassignAbsent(b: Challs, cat: string, name: string, player: string)
    requires BoardValid(b) && Lookup(b, cat, name).Ok?
    requires player !in b[cat].vals[name].assignees
    ensures Unassign(b, cat, name, player) == Ok(b)
  {
    var ch := b[cat].vals[name];
    assert ch.(assignees := ch.assignees - {player}) == ch;
    ReplaceSame(b, cat, name);
  }

  /** `unassign` undoes an `assign` of a player who was not assigned before. */
  lemma UnassignUndoesAssign(b: Challs, cat: string, name: string, player: string)
    requires BoardValid(b) && Lookup(b, cat, name).Ok?
    requires player !in b[cat].vals[name].assignees
    ensures Assign(b, cat, name, player).Ok?
    ensures Unassign(Assign(b, cat, name, player).value, cat, name, player) == Ok(b)
  {
    var ch := b[cat].vals[name];
    var ch' := ch.(assignees := ch.assignees + {player});
    assert ch'.(assignees := ch'.assignees - {player}) == ch;
    ReplaceTwice(b, cat, name, ch', ch);
    ReplaceSame(b, cat, name);
  }

  /** Setting a vuln flag that is already set changes nothing. */
  lemma MarkVulnIdempotent(b: Challs, cat: string, name: string, vuln: string, exploit: bool)
    requires BoardValid(b) && MarkVuln(b, cat, name, vuln, exploit).Ok?
    ensures MarkVuln(MarkVuln(b, cat, name, vuln, exploit).value, cat, name, vuln, exploit)
         == MarkVuln(b, cat, name, vuln, exploit)
  {
    var ch := b[cat].vals[name];
    var v := ch.vulns.vals[vuln];
    var v' := if exploit then v.(exploit := true) else v.(patch := true);
    var ch' := ch.(vulns := Put(ch.vulns, vuln, v'));
    var v'' := if exploit then v'.(exploit := true) else v'.(patch := true);
    assert v'' == v';
    PutPut(ch.vulns, vuln, v', v');
    ReplaceTwice(b, cat, name, ch', ch');
  }

  /** `patch` and `exploit` touch different flags, so their order does not matter. */
  lemma PatchExploitCommute(b: Challs, cat: string, name: string, vuln: string)
    requires BoardValid(b) && Patch(b, cat, name, vuln).Ok?
    ensures Exploit(b, cat, name, vuln).Ok?
    ensures Exploit(Patch(b, cat, name, vuln).value, cat, name, vuln)
         == Patch(Exploit(b, cat, name, vuln).value, cat, name, vuln)
  {
    var ch := b[cat].vals[name];
    var v := ch.vulns.vals[vuln];
    var both := ch.(vulns := Put(ch.vulns, vuln, v.(patch := true, exploit := true)));
    PutPut(ch.vulns, vuln, v.(patch := true), v.(patch := true, exploit := true));
    PutPut(ch.vulns, vuln, v.(exploit := true), v.(patch := true, exploit := true));
    ReplaceTwice(b, cat, name, ch.(vulns := Put(ch.vulns, vuln, v.(patch := true))), both);
    ReplaceTwice(b, cat, name, ch.(vulns := Put(ch.vulns, vuln, v.(exploit := true))), both);
  }

  /** `vuln` with a name that already exists resets both of its flags: adding,
      marking and adding again is the same as adding once. */
  lemma AddVulnResets(b: Challs, cat: string, name: string, vuln: string, exploit: bool)
    requires BoardValid(b) && Lookup(b, cat, name).Ok?
    ensures AddVuln(b, cat, name, vuln).Ok?
    ensures MarkVuln(AddVuln(b, cat, name, vuln).value, cat, name, vuln, exploit).Ok?
    ensures AddVuln(MarkVuln(AddVuln(b, cat, name, vuln).value, cat, name, vuln, exploit).value, cat, name, vuln)
         == AddVuln(b, cat, name, vuln)
  {
    var ch := b[cat].vals[name];
    var unset := Vuln(false, false);
    var marked := if exploit then unset.(exploit := true) else unset.(patch := true);
    var vs := Put(ch.vulns, vuln, unset);
    var ch1 := ch.(vulns := vs);
    var ch2 := ch.(vulns := Put(vs, vuln, marked));
    PutPut(vs, vuln, marked, unset);
    PutPut(ch.vulns, vuln, unset, marked);
    PutPut(ch.vulns, vuln, unset, unset);
    ReplaceTwice(b, cat, name, ch1, ch2);
    ReplaceTwice(b, cat, name, ch2, ch1);
  }
}
