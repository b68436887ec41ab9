# CTF organizers bot: the challenge status board

The bot keeps one mutable dict, `status_dict`, that records:

- the competition type (`"jeopardy"` at first, then whatever `/start` was given: `"Jeopardy"` or `"AD"`);
- for every configured category, an insertion-ordered dict of challenges;
- for each challenge, a `solved` flag, the set of players `assigned` to it, and an insertion-ordered dict of vulns, each with a `patch` and an `exploit` flag.

Slash-command handlers change this dict in place:

- `/start` resets it;
- `/chal` adds a challenge;
- `/solved`, `/assign`, `/unassign`, `/vuln`, `/patch` and `/exploit` edit one challenge;
- `/archive` empties every category.

Every 15 seconds `display_status` renders the dict as a fixed-layout text table and posts it. When a competition starts, `/start` reads the last posted table back into the dict, line by line. A single `try` wraps that loop, so the first bad line ends it quietly.

The model has seven modules:

- `PyStr` (`py_str.dfy`): the Python string built-ins the board uses, over `string`. These are `split` on one character, `split()[0]`, `strip`, `lstrip` and `rstrip` with character sets, `join`, `f"{s: <n}"`, `c * n`, and ASCII `upper` and `lower`.
- `OrderedMap` (`ordered_map.dfy`): a dict as a key sequence plus a map. Assigning a new key appends it; re-assigning an existing key keeps its position.
- `Board` (`board.dfy`): the challenge state as values. Each handler's effect is a function. An indexing `KeyError` becomes an `Err` result that leaves the state as it was. The module also holds the algebraic laws of the handlers.
- `Render` (`render.dfy`): the posted text as a function of the state.
- `Parse` (`parse.dfy`): the read-back loop as a step function over the loop's variables. These are:
  - `curr_cat`;
  - `curr_chal`;
  - the `chal` object;
  - where that object is stored. A vuln line mutates the stored object through this alias, even after a new category header.

  `Run` stops at the first line that raises and keeps what was stored before it.
- `RoundTrip` (`round_trip.dfy`): reading a posted board back gives the state as the board shows it, for names the layout can carry.
- `StatusBoard` (`status_board.dfy`): the class `StatusDict`. Its fields are the type and the challenges; the category list is a constructor parameter. It has one method per handler, each modifying the object and proved to follow the `Board` function for that handler. It also has the nested rendering loops of `display_status`, proved equal to `RenderBoard`, and the read-back loop of `/start`, proved equal to `ParseBoard`.

Combining the contracts:

- `DisplayStatus` yields `RenderBoard(kind, categories, challs, listing)`.
- `Start(t, Some(text))` yields `ParseBoard(t, categories, text)`.
- `RoundTrip` relates the two.

So restarting from the board the bot last posted restores every category and challenge in order, provided the names fit the layout. Each challenge comes back with its solved flag and its players (none when it is solved). In attack-defense mode on both sides, its vulns and their flags come back too.

The read-back does not restore every state the handlers can reach, and two different states can post the same text:

- the players of a solved challenge are not shown, so they are lost;
- a name containing `|`, `,` or a line break, or one with surrounding blanks, changes the line's fields;
- a challenge name starting with `-` or `` ` `` is skipped as a separator or fence, one starting with a space is read as a vuln line, and one starting with the escape character can be read as a header;
- a category name with capitals, or with a character outside ASCII, may not lower-case back to itself (Python upper-cases "ß" to "SS"), and the next challenge line under it then raises `KeyError`;
- a category name of several words is read back as its first word only, since the header is cut at the first whitespace ("reverse engineering" comes back as "reverse"), and the next challenge line then raises `KeyError`;
- a category name whose upper-cased first character is in the bold escape sequence, or whose upper-cased last character is in the plain one, loses those characters to `lstrip` or `rstrip` ("1337ctf" loses "1337", "web3" loses its "3"), with the same `KeyError`.

`RoundTrip` carries these conditions as preconditions.

## Model

| member | source | states |
|---|---|---|
| PyStr.Repeat | organizers_bot/bot.py:65 | `c * n` is `n` copies of `c` |
| PyStr.PadRight | organizers_bot/bot.py:68 | `f"{s: <n}"` keeps `s` as its prefix and pads it with blanks to `n` characters, never truncating |
| PyStr.LStrip | organizers_bot/bot.py:106 | `lstrip(cs)` removes exactly the longest prefix made of characters in `cs` |
| PyStr.RStrip | organizers_bot/bot.py:106 | `rstrip(cs)` removes exactly the longest suffix made of characters in `cs` |
| PyStr.StartsWith | organizers_bot/bot.py:104 | `s.startswith(p)` holds exactly when `s` is at least as long as `p` and agrees with it position by position |
| PyStr.Strip | organizers_bot/bot.py:114 | `strip()` yields a piece of the text with no whitespace at either end and only whitespace around it in the text |
| PyStr.Join | organizers_bot/bot.py:70 | every character of `sep.join(l)` comes from the separator or from one of the joined strings |
| PyStr.Split | organizers_bot/bot.py:103 | `split(sep)` yields at least one field |
| PyStr.StripAll | organizers_bot/bot.py:118 | each field is stripped, in order |
| PyStr.TakeWord | organizers_bot/bot.py:106 | the first word is the longest prefix free of whitespace |
| PyStr.FirstWord | organizers_bot/bot.py:106 | `split()[0]` raises exactly for an all-whitespace line, and otherwise is the first word: only whitespace precedes it, and whitespace or the end of the line follows it |
| PyStr.Upper | organizers_bot/bot.py:65 | `upper()` keeps the length |
| PyStr.Lower | organizers_bot/bot.py:106 | `lower()` keeps the length and leaves no capital letter |
| PyStr.LowerUpper | organizers_bot/bot.py:106 | lower-casing an upper-cased name gives it back if and only if it has no capitals |
| PyStr.FirstCharDiffers | organizers_bot/bot.py:104 | a line whose first character differs from a prefix's does not start with it |
| PyStr.SplitNoSep | organizers_bot/bot.py:113 | a line without a bar splits into one field, so unpacking it raises |
| PyStr.SplitAt | organizers_bot/bot.py:103 | a separator after a separator-free piece ends the first field |
| PyStr.SplitTwo | organizers_bot/bot.py:103 | two separator-free pieces around one separator split into exactly those two |
| PyStr.JoinSplit | organizers_bot/bot.py:118 | joining the fields of a split with the separator gives the text back |
| PyStr.SplitJoin | organizers_bot/bot.py:118 | splitting a join of separator-free names gives the names back |
| PyStr.LStripPrefix | organizers_bot/bot.py:106 | `lstrip` removes a prefix of stripped characters and nothing after it |
| PyStr.RStripSuffix | organizers_bot/bot.py:106 | `rstrip` removes a suffix of stripped characters and nothing before it |
| PyStr.StripPadded | organizers_bot/bot.py:114 | `strip()` undoes the padding around a name without surrounding whitespace |
| PyStr.TakeWordPrefix | organizers_bot/bot.py:106 | the first word of a word followed by whitespace is that word |
| PyStr.UnlinesAppend | organizers_bot/bot.py:63-76 | text built line by line from two lists of lines is the two texts concatenated |
| PyStr.SplitUnlines | organizers_bot/bot.py:103 | splitting text built from single lines at line breaks gives those lines back |
| OrderedMap.Empty | organizers_bot/bot.py:96 | `{}` has no keys |
| OrderedMap.Put | organizers_bot/bot.py:121 | `d[k] = v` sets `k` to `v`, keeps every other key and value, appends a new key and leaves the order alone for an existing one |
| OrderedMap.PutPut | organizers_bot/bot.py:121 | assigning a key twice equals assigning it the second value |
| OrderedMap.PutSame | organizers_bot/bot.py:121 | assigning a key its own value changes nothing, order included |
| OrderedMap.PutInOrder | organizers_bot/bot.py:121 | assigning distinct new keys one by one lists them in that order |
| Board.NewChallenge | organizers_bot/bot.py:206 | a new challenge is unsolved, with nobody assigned and no vulns |
| Board.Fresh | organizers_bot/bot.py:96 | exactly the configured categories, each with an empty challenge dict |
| Board.Lookup | organizers_bot/bot.py:238 | `challs[cat][name]` raises on an unknown category, else on an unknown challenge, else yields the entry |
| Board.Replace | organizers_bot/bot.py:238 | writing an existing entry changes that entry only, and no key order |
| Board.PutValid | organizers_bot/bot.py:121 | storing a well-formed challenge keeps both dict levels well formed |
| Board.PutOnlyChanged | organizers_bot/bot.py:121 | storing at an existing entry changes no other entry and no key |
| Board.AddChallenge | organizers_bot/bot.py:206 | `/chal` fails exactly for an unknown category, stores a new challenge under the name (appended if new), and leaves every other entry alone |
| Board.Solve | organizers_bot/bot.py:237-238 | `/solved` in a channel whose name starts with ✓ changes nothing; otherwise it raises exactly when the entry is missing and sets only `solved` |
| Board.Assign | organizers_bot/bot.py:390 | `/assign` adds the player to the set of that challenge only, and raises exactly when the entry is missing |
| Board.Unassign | organizers_bot/bot.py:405 | `/unassign` removes the player from the set of that challenge only, and raises exactly when the entry is missing |
| Board.AddVuln | organizers_bot/bot.py:139 | `/vuln` writes the vuln as neither patched nor exploited, overwriting an existing one, and keeps the older vulns and their order |
| Board.MarkVuln | organizers_bot/bot.py:152-157 | `/patch` (and `/exploit`) succeeds exactly when the challenge and the vuln exist, and then sets only its own flag; for an unknown vuln the state is unchanged and the error lists the vuln names in order |
| Board.Patch | organizers_bot/bot.py:152-157 | `/patch` succeeds exactly when the challenge and the vuln exist; it then sets that vuln's patch flag, keeps its exploit flag and changes no other entry |
| Board.Exploit | organizers_bot/bot.py:169-174 | `/exploit` succeeds exactly when the challenge and the vuln exist; it then sets that vuln's exploit flag, keeps its patch flag and changes no other entry |
| Board.ReplaceTwice | organizers_bot/bot.py:238 | writing an entry twice equals writing it the second time |
| Board.ReplaceSame | organizers_bot/bot.py:238 | writing back an entry's own value changes nothing |
| Board.SolveIdempotent | organizers_bot/bot.py:237-238 | solving twice equals solving once |
| Board.AssignIdempotent | organizers_bot/bot.py:390 | assigning a player twice equals assigning once, as adding to a set does |
| Board.UnassignAbsent | organizers_bot/bot.py:405 | unassigning a player who is not assigned changes nothing |
| Board.UnassignUndoesAssign | organizers_bot/bot.py:390-405 | unassigning a newly assigned player restores the state |
| Board.MarkVulnIdempotent | organizers_bot/bot.py:152-157 | marking a vuln twice equals marking it once |
| Board.PatchExploitCommute | organizers_bot/bot.py:152-174 | patching and exploiting the same vuln commute |
| Board.AddVulnResets | organizers_bot/bot.py:139-157 | `/vuln` after a mark resets the vuln to what `/vuln` alone gives |
| Render.Header | organizers_bot/bot.py:65 | a category header opens with the bold escape sequence, then the upper-cased name, and ends with the column bar |
| Render.Status | organizers_bot/bot.py:67-72 | the status column is ✅ for a solved challenge and ❌ for one nobody is on; for a challenge with players, none of whose names holds a glyph, it holds neither glyph |
| Render.ChallengeLine | organizers_bot/bot.py:67-72 | a challenge line starts with the name, puts the column bar right after the 30-character name column when the name fits it, and ends with the status |
| Render.VulnLine | organizers_bot/bot.py:75 | a vuln line starts with ten blanks, then the name, and ends with the exploit glyph |
| Render.VulnLines | organizers_bot/bot.py:74-75 | one line per vuln |
| Render.ChallengeBlock | organizers_bot/bot.py:67-75 | a challenge's block is its line, followed by one line per vuln in attack-defense mode only |
| Render.ChallengeLines | organizers_bot/bot.py:66-75 | one line per challenge outside attack-defense mode, at least one per challenge inside it |
| Render.CategoryBlock | organizers_bot/bot.py:65-75 | a category's block opens with the separator and the header, then at least one line per challenge (exactly one outside attack-defense mode) |
| Render.BoardLines | organizers_bot/bot.py:64-75 | every category contributes at least its separator and header, and the lines open with a separator |
| Render.RenderBoard | organizers_bot/bot.py:63-76 | the message opens with the ```` ```ansi ```` fence line and ends with the closing fence |
| Render.VulnLinesLast | organizers_bot/bot.py:74-75 | the vuln lines are those of the earlier vulns followed by the last one's |
| Render.ChallengeLinesLast | organizers_bot/bot.py:66-75 | the challenge lines are those of the earlier challenges followed by the last one's block |
| Render.BoardLinesLast | organizers_bot/bot.py:64-75 | the board lines are those of the earlier categories followed by the last one's block |
| Parse.HeaderName | organizers_bot/bot.py:106 | the name extraction raises exactly when `split()[0]` does; otherwise the name has no capitals and is no longer than the first word |
| Parse.Initial | organizers_bot/bot.py:100-102 | the loop starts from the fresh categories with nothing current |
| Parse.SetOf | organizers_bot/bot.py:118 | `set(...)` holds exactly the listed names |
| Parse.StatusChallenge | organizers_bot/bot.py:115-118 | a status field with ✅ is a solved challenge with nobody assigned; one with ❌ has nobody assigned; otherwise the players are the stripped comma-separated fields of the stripped status field; no vulns |
| Parse.Store | organizers_bot/bot.py:120-121 | when a category and a challenge are current, the `chal` object is written under them (a dict assignment), becomes the object stored there, and no other category changes; this raises exactly for an unconfigured category; otherwise nothing changes |
| Parse.VulnStep | organizers_bot/bot.py:109-111 | a vuln line succeeds exactly when it has three fields and a challenge was read; it then writes the stripped name with its two flags into `chal`, and the same change appears at the entry where `chal` is stored, with no other entry changed; the current category and challenge name stay |
| Parse.ChallengeStep | organizers_bot/bot.py:113-118 | a challenge line raises exactly when it does not have two fields; otherwise the stripped first field becomes the current challenge name and a new `chal` object built from the status field becomes current, not yet stored anywhere; nothing is written |
| Parse.Step | organizers_bot/bot.py:104-121 | lines starting with `-` or a backtick are skipped; a pass never adds or drops a category |
| Parse.Run | organizers_bot/bot.py:103-123 | the read-back keeps the configured categories and both dict levels well formed |
| Parse.RunAll | organizers_bot/bot.py:103-121 | lines read without a raise keep the loop variables coherent and the categories as they were |
| Parse.ParseBoard | organizers_bot/bot.py:96-123 | `/start` leaves exactly the configured categories, well formed |
| Parse.RunCons | organizers_bot/bot.py:103 | a read without a raise begins with a first line that does not raise |
| Parse.RunAllThen | organizers_bot/bot.py:103 | reading `a + b` without a raise is reading `a`, then `b` from where `a` left off |
| Parse.RunThen | organizers_bot/bot.py:103-123 | the same for the read that stops at a raise |
| Parse.ParseStopsAt | organizers_bot/bot.py:97-123 | the first line that raises ends the read, and the entries stored before it stay |
| Parse.ChallengeBeforeHeader | organizers_bot/bot.py:112-121 | a challenge line before any header is read but not stored |
| Parse.UnknownCategoryStops | organizers_bot/bot.py:120-121 | a challenge line under an unconfigured category raises |
| Parse.VulnWithoutChallengeStops | organizers_bot/bot.py:109-111 | a vuln line in attack-defense mode before any challenge line raises |
| Parse.GarbageLines | organizers_bot/bot.py:103 | `" garbage\nnotaline"` is two lines |
| Parse.GarbageFirst | organizers_bot/bot.py:108-111 | `" garbage"` raises in attack-defense mode and is skipped otherwise |
| Parse.GarbageSecond | organizers_bot/bot.py:112-113 | `"notaline"` raises, having no bar |
| Parse.InitialAliased | organizers_bot/bot.py:100-102 | the alias holds before the first line |
| Parse.StoreAliased | organizers_bot/bot.py:120-121 | after the store, `chal` is the object at `chalAt`, and a current challenge under a configured category is stored there |
| Parse.StepAliased | organizers_bot/bot.py:104-121 | every line that does not raise keeps that alias |
| Parse.HeaderLine | organizers_bot/bot.py:105-107 | a header line only makes its name current and clears the current challenge name |
| Parse.IndentedLine | organizers_bot/bot.py:108-111 | with no current challenge name, an attack-defense vuln line does exactly what `VulnStep` does, and the store after it writes nothing |
| Parse.HeaderThenVuln | organizers_bot/bot.py:105-111 | in attack-defense mode, a vuln line after a new category header still adds the vuln to the challenge stored under the previous category, and changes no other entry |
| Parse.GarbageLeavesFresh | organizers_bot/bot.py:96-123 | reading `" garbage\nnotaline"` leaves every configured category empty |
| RoundTrip.JoinAvoids | organizers_bot/bot.py:70 | a join of names without a character, with a separator without it, has none of it |
| RoundTrip.PlayersSplit | organizers_bot/bot.py:118 | splitting `", ".join(players)`, possibly after a blank, at `,` and stripping gives the players back |
| RoundTrip.HeaderReads | organizers_bot/bot.py:105-107 | a rendered category header is a header line whose extracted name is the category |
| RoundTrip.PlayersReadBack | organizers_bot/bot.py:117-118 | the players' column reads back as the set of players, whatever order the set was listed in |
| RoundTrip.StatusReads | organizers_bot/bot.py:116-118 | a rendered status field reads back as the challenge shown: solved, or its players, or nobody |
| RoundTrip.ChallengeLineReads | organizers_bot/bot.py:113-114 | a rendered challenge line is a challenge line of two fields whose stripped name is the challenge's |
| RoundTrip.VulnLineReads | organizers_bot/bot.py:110-111 | a rendered vuln line is an indented line of three fields whose stripped name and flags are the vuln's |
| RoundTrip.HeaderStep | organizers_bot/bot.py:105-107 | reading a header makes its category current and clears the current challenge |
| RoundTrip.ChallengeStepReads | organizers_bot/bot.py:112-121 | reading a challenge line stores the challenge as shown under the current category |
| RoundTrip.VulnStepReads | organizers_bot/bot.py:108-111 | reading a vuln line adds it to the stored challenge in attack-defense mode, and is skipped otherwise |
| RoundTrip.VulnBlockRead | organizers_bot/bot.py:108-111 | a challenge's vuln lines read back into that challenge's vulns, in order |
| RoundTrip.ChallengeBlockRead | organizers_bot/bot.py:108-121 | a challenge's block reads back as the challenge as shown |
| RoundTrip.ChallengesRead | organizers_bot/bot.py:103-121 | a category's challenge blocks read back into that category in order |
| RoundTrip.CategoryRead | organizers_bot/bot.py:103-121 | a category's block reads back as the category as shown |
| RoundTrip.BoardRead | organizers_bot/bot.py:103-121 | the category blocks read back into the fresh state, category by category |
| RoundTrip.RuleSkipped | organizers_bot/bot.py:104 | the separator line is skipped |
| RoundTrip.FencesSkipped | organizers_bot/bot.py:104 | the fence lines are skipped |
| RoundTrip.RenderLayout | organizers_bot/bot.py:63-76 | the posted text's lines are the opening fence, the category blocks in configured order, a separator and the closing fence |
| RoundTrip.RoundTrip | organizers_bot/bot.py:63-123 | reading back a rendered board gives the board as shown: every challenge in order, its solved flag, its players unless solved, and its vulns when both sides are in attack-defense mode |
| StatusBoard.StatusDict.constructor | organizers_bot/bot.py:58 | the type starts as "jeopardy" and every configured category empty |
| StatusBoard.StatusDict.Start | organizers_bot/bot.py:95-123 | `/start` sets the type and leaves the fresh categories when the fetch fails, else the read-back of the fetched text |
| StatusBoard.ReadBoard | organizers_bot/bot.py:97-123 | the read-back loop, with a `break` at the first raise, computes `Run` from the fresh state |
| StatusBoard.ReadLine | organizers_bot/bot.py:104-121 | one pass of the loop body on the loop variables computes `Step` |
| StatusBoard.StatusDict.CreateChallenge | organizers_bot/bot.py:206 | `/chal` updates the object as `AddChallenge` specifies, keeping the type |
| StatusBoard.StatusDict.MarkSolved | organizers_bot/bot.py:237-238 | `/solved` updates the object as `Solve` specifies |
| StatusBoard.StatusDict.AssignPlayer | organizers_bot/bot.py:390 | `/assign` updates the object as `Assign` specifies |
| StatusBoard.StatusDict.UnassignPlayer | organizers_bot/bot.py:405 | `/unassign` updates the object as `Unassign` specifies |
| StatusBoard.StatusDict.AddVuln | organizers_bot/bot.py:139 | `/vuln` updates the object as `Board.AddVuln` specifies |
| StatusBoard.StatusDict.Mark | organizers_bot/bot.py:152-174 | setting a vuln flag updates the object as `MarkVuln` specifies |
| StatusBoard.StatusDict.MarkPatched | organizers_bot/bot.py:152-157 | `/patch` updates the object as `Patch` specifies |
| StatusBoard.StatusDict.MarkExploited | organizers_bot/bot.py:169-174 | `/exploit` updates the object as `Exploit` specifies |
| StatusBoard.StatusDict.Archive | organizers_bot/bot.py:261-270 | `/archive` outside a guild changes nothing; otherwise it empties every configured category; the type is kept |
| StatusBoard.StatusDict.DisplayStatus | organizers_bot/bot.py:63-76 | the message built by the nested loops is `RenderBoard` of the current state |
| StatusBoard.AppendCategories | organizers_bot/bot.py:64-75 | the category loop appends the lines of every category in order |
| StatusBoard.AppendCategory | organizers_bot/bot.py:65-75 | one pass appends the separator, the header and the category's challenge lines |
| StatusBoard.AppendChallenges | organizers_bot/bot.py:66-75 | the challenge loop appends every challenge's block in insertion order |
| StatusBoard.AppendChallenge | organizers_bot/bot.py:67-75 | one pass appends the challenge's line and, in attack-defense mode, its vuln lines |
| StatusBoard.AppendVulns | organizers_bot/bot.py:74-75 | the vuln loop appends every vuln's line in insertion order |

## Left out

- The Discord side is not modelled: client setup, command registration, `on_ready`, channel creation, renaming and moving, message fetch, edit, send and pin, and the 15-second scheduling of `display_status` (organizers_bot/bot.py:36-56, 60-62, 77-81). These are foreign library calls and asynchronous I/O. `DisplayStatus` returns the text instead of posting it.
- `require_role`, `nuke`, `export`, `stats`, `ping`, the ctfnote and transcript integrations, and the configuration loader (organizers_bot/config.py) are not modelled. They touch no board state, or only through foreign calls. The category list is the constructor parameter `categories`.
- StatusBoard.StatusDict.Start: the message fetch is the parameter `transcript`, where `None` stands for a fetch or channel lookup that raises. The fetch sits inside the same `try`, so such a failure leaves the fresh categories.
- The channel a command runs in is given as the `category` and `channel` strings. The name Discord gives a created channel is taken as given, and a channel outside any category is not modelled; its `.name` lookup would raise before the dict is touched.
- StatusBoard.StatusDict.MarkSolved: the channel rename to `✓-…`, the ctfnote flag update and the flag message are I/O and are not modelled.
- StatusBoard.StatusDict.Archive: moving the channels is I/O. If one of those calls raised, the source would skip the reset; the model always resets inside a guild.
- StatusBoard.ReadBoard: the loop writes into a local copy of the challenges, which `Start` stores when the loop ends. The source writes into the dict as it goes; no `await` occurs inside the loop, so nothing can observe the difference.
- Handlers run one at a time here. In the bot they interleave at their `await`s. Every handler except `/start` changes the state in one statement with no `await` inside it.
- StatusBoard.StatusDict.Start: modelled as atomic. In the source the reset (organizers_bot/bot.py:95-96) and the loop's writes (organizers_bot/bot.py:121) are separated by the awaited message fetch (organizers_bot/bot.py:99). A `/chal`, `/archive` or `display_status` that runs during that fetch, and how its effect mixes with the read-back, is not modelled.
- Python's iteration order over a set of players is the parameter `listing` of the renderer. The round trip holds for every listing that enumerates the set.
- PyStr.Upper: `upper()` is modelled for the ASCII letters only; other characters are left as they are.
- PyStr.Lower: `lower()` is modelled for the ASCII letters only; other characters are left as they are.
- The `type` option is restricted to "Jeopardy" and "AD" by the command's choices. The model accepts any string, and only the exact string "AD" turns on vuln lines, as in the source.
- RoundTrip.RoundTrip: holds only for names the layout can carry, not for every reachable state. Its category names are ASCII, since Python's `upper()` and `lower()` outside ASCII can change a name. It also restores a solved challenge without its players, and drops vulns unless both sides are in attack-defense mode, because that is what the code as written does.
