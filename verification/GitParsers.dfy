/** Git's NUL-separated diff outputs: the three parsers recover what git printed, and their join never misses. */
module GitParsers {
  import opened Json
  import opened Text

  datatype Error = EmptyStatus | Truncated | Malformed | NotANumber
  datatype Result<+T> = Ok(value: T) | Err(error: Error)

  const NUL: char := '\0'

  // ---------------------------------------------------------------- what git reports

  /** Line counts, absent for binary files. */
  datatype Stat = Stat(additions: Option<nat>, deletions: Option<nat>, binary: bool)
  datatype Modes = Modes(oldMode: string, newMode: string, oldOid: string, newOid: string)

  datatype FileChange = FileChange(status: string, oldPath: Option<string>, path: string, stat: Stat, modes: Modes)

  predicate IsMove(status: string) {
    status != "" && (status[0] == 'R' || status[0] == 'C')
  }

  predicate IsWord(w: string) {
    w != "" && NUL !in w && forall i | 0 <= i < |w| :: !IsSpace(w[i])
  }

  predicate IsPath(p: string) {
    p != "" && NUL !in p
  }

  /** A change as git can report it: any NUL-free paths, tabs and line breaks included. */
  predicate Possible(c: FileChange) {
    && IsWord(c.status) && IsPath(c.path)
    && (IsMove(c.status) <==> c.oldPath.Some?) && (c.oldPath.Some? ==> IsPath(c.oldPath.value))
    && (c.stat.binary <==> c.stat.additions.None?) && (c.stat.binary <==> c.stat.deletions.None?)
    && IsWord(c.modes.oldMode) && IsWord(c.modes.newMode) && IsWord(c.modes.oldOid) && IsWord(c.modes.newOid)
  }

  // ---------------------------------------------------------------- git's printers

  function Digit(n: nat): char
    requires n < 10
  {
    ('0' as int + n) as char
  }

  function Decimal(n: nat): string {
    if n < 10 then [Digit(n)] else Decimal(n / 10) + [Digit(n % 10)]
  }

  function Counter(n: Option<nat>): string {
    if n.Some? then Decimal(n.value) else "-"
  }

  /** The fields of one change in `--name-status -z`. */
  function NameStatusFields(c: FileChange): seq<string> {
    [c.status] + (if c.oldPath.Some? then [c.oldPath.value] else []) + [c.path]
  }

  /** In `--numstat -z`: a move has an empty path in its header and both paths behind it. */
  function NumstatFields(c: FileChange): seq<string> {
    var counts := Counter(c.stat.additions) + "\t" + (Counter(c.stat.deletions) + "\t");
    if c.oldPath.Some? then [counts, c.oldPath.value, c.path] else [counts + c.path]
  }

  /** In `--raw -z`. */
  function RawFields(c: FileChange): seq<string> {
    [":" + JoinWords([c.modes.oldMode, c.modes.newMode, c.modes.oldOid, c.modes.newOid, c.status])] +
    (if c.oldPath.Some? then [c.oldPath.value] else []) + [c.path]
  }

  function JoinWords(words: seq<string>): string {
    if words == [] then ""
    else if |words| == 1 then words[0]
    else words[0] + (" " + JoinWords(words[1..]))
  }

  /** Every field is followed by a NUL. */
  function Terminated(fields: seq<string>): string {
    if fields == [] then "" else fields[0] + [NUL] + Terminated(fields[1..])
  }

  // ---------------------------------------------------------------- splitting

  /** `raw.split(b"\0")`. */
  function Split(raw: string, field: string): (r: seq<string>)
    ensures |r| > 0
    decreases |raw|
  {
    if raw == "" then [field]
    else if raw[0] == NUL then [field] + Split(raw[1..], "")
    else Split(raw[1..], field + [raw[0]])
  }

  /** The fields of an output: an empty field at the end is dropped. */
  function Fields(raw: string): seq<string> {
    var all := Split(raw, "");
    if all[|all| - 1] == "" then all[..|all| - 1] else all
  }

  lemma {:induction false} SplitField(text: string, before: string, rest: string)
    requires NUL !in text
    ensures Split(text + [NUL] + rest, before) == [before + text] + Split(rest, "")
    decreases |text|
  {
    var raw := text + [NUL] + rest;
    if text == "" {
      assert raw[1..] == rest && before + text == before;
    } else {
      SplitField(text[1..], before + [text[0]], rest);
      assert raw[1..] == text[1..] + [NUL] + rest;
      assert before + [text[0]] + text[1..] == before + text;
    }
  }

  lemma {:induction false} SplitTerminated(fields: seq<string>)
    requires forall i | 0 <= i < |fields| :: NUL !in fields[i]
    ensures Split(Terminated(fields), "") == fields + [""]
    ensures Fields(Terminated(fields)) == fields
    decreases |fields|
  {
    if fields != [] {
      SplitTerminated(fields[1..]);
      SplitField(fields[0], "", Terminated(fields[1..]));
      assert "" + fields[0] == fields[0];
      assert [fields[0]] + (fields[1..] + [""]) == fields + [""];
    }
    var all := fields + [""];
    assert all[|all| - 1] == "" && all[..|all| - 1] == fields;
  }

  /** `text.split("\t", 2)`. */
  function SplitTabs(text: string, most: nat): (r: seq<string>)
    ensures 1 <= |r| <= most + 1
    decreases most
  {
    var k := FindTab(text, 0);
    if most == 0 || k == |text| then [text] else [text[..k]] + SplitTabs(text[k + 1..], most - 1)
  }

  function FindTab(text: string, from: nat): (k: nat)
    requires from <= |text|
    ensures from <= k <= |text|
    ensures k < |text| ==> text[k] == '\t'
    ensures forall i | from <= i < k :: text[i] != '\t'
    decreases |text| - from
  {
    if from == |text| || text[from] == '\t' then from else FindTab(text, from + 1)
  }

  lemma TabAt(text: string, k: nat)
    requires k < |text| && text[k] == '\t' && forall i | 0 <= i < k :: text[i] != '\t'
    ensures FindTab(text, 0) == k
  {
  }

  lemma SplitAtTab(front: string, rest: string, most: nat)
    requires most > 0 && '\t' !in front
    ensures SplitTabs(front + "\t" + rest, most) == [front] + SplitTabs(rest, most - 1)
  {
    var text := front + "\t" + rest;
    TabAt(text, |front|);
    assert text[..|front|] == front && text[|front| + 1..] == rest;
  }

  /** `text.split()`: the words between runs of white space. */
  function SplitWords(text: string, word: string): seq<string>
    decreases |text|
  {
    var done := if word == "" then [] else [word];
    if text == "" then done
    else if IsSpace(text[0]) then done + SplitWords(text[1..], "")
    else SplitWords(text[1..], word + [text[0]])
  }

  lemma {:induction false} SplitWord(word: string, before: string, rest: string)
    requires forall i | 0 <= i < |word| :: !IsSpace(word[i])
    ensures SplitWords(word + rest, before) == SplitWords(rest, before + word)
    decreases |word|
  {
    if word == "" {
      assert word + rest == rest && before + word == before;
    } else {
      SplitWord(word[1..], before + [word[0]], rest);
      assert (word + rest)[1..] == word[1..] + rest;
      assert before + [word[0]] + word[1..] == before + word;
    }
  }

  lemma {:induction false} SplitJoined(words: seq<string>)
    requires forall i | 0 <= i < |words| :: IsWord(words[i])
    ensures SplitWords(JoinWords(words), "") == words
    decreases |words|
  {
    if |words| == 1 {
      SplitWord(words[0], "", "");
      assert words[0] + "" == words[0] && "" + words[0] == words[0];
    } else if words != [] {
      var rest := " " + JoinWords(words[1..]);
      SplitWord(words[0], "", rest);
      assert "" + words[0] == words[0];
      assert rest[1..] == JoinWords(words[1..]) && IsSpace(rest[0]);
      SplitJoined(words[1..]);
      assert [words[0]] + words[1..] == words;
    }
  }

  // ---------------------------------------------------------------- numbers

  function ParseDigits(s: string, sofar: nat): Option<nat> {
    if s == "" then Some(sofar)
    else if '0' <= s[0] <= '9' then ParseDigits(s[1..], sofar * 10 + (s[0] as int - '0' as int))
    else None
  }

  /** `int(text)` on what git prints: digits. */
  function ParseNat(s: string): Option<nat> {
    if s == "" then None else ParseDigits(s, 0)
  }

  lemma {:induction false} ParseDecimalFrom(n: nat, rest: string)
    ensures ParseDigits(Decimal(n) + rest, 0) == ParseDigits(rest, n)
    ensures Decimal(n) != "" && forall i | 0 <= i < |Decimal(n)| :: '0' <= Decimal(n)[i] <= '9'
    decreases n
  {
    if n < 10 {
      assert (Decimal(n) + rest)[1..] == rest;
    } else {
      var tail := [Digit(n % 10)] + rest;
      ParseDecimalFrom(n / 10, tail);
      assert Decimal(n) + rest == Decimal(n / 10) + tail;
      assert tail[1..] == rest;
    }
  }

  lemma ParseDecimal(n: nat)
    ensures ParseNat(Decimal(n)) == Some(n)
    ensures Decimal(n) != "-" && '\t' !in Decimal(n) && NUL !in Decimal(n)
  {
    ParseDecimalFrom(n, "");
    assert Decimal(n) + "" == Decimal(n);
  }

  // ---------------------------------------------------------------- the parsers, as functions of the fields

  datatype Change = Change(status: string, path: string, oldPath: Option<string>)

  function NameStatusOf(fields: seq<string>): Result<seq<Change>> {
    if fields == [] then Ok([])
    else
      var status := fields[0];
      if status == "" then Err(EmptyStatus)
      else
        var size := if IsMove(status) then 3 else 2;
        if |fields| < size then Err(Truncated)
        else
          var rest := NameStatusOf(fields[size..]);
          if rest.Err? then rest
          else Ok([Change(status, fields[size - 1], if size == 3 then Some(fields[1]) else None)] + rest.value)
  }

  /** The line counts of one numstat header, its path, and how many fields the record has. */
  function NumstatRecord(fields: seq<string>): Result<(string, Stat, nat)>
    requires fields != []
  {
    var parts := SplitTabs(fields[0], 2);
    if |parts| != 3 then Err(Malformed)
    else if parts[2] == "" && |fields| < 3 then Err(Truncated)
    else
      var path := if parts[2] == "" then fields[2] else parts[2];
      var size := if parts[2] == "" then 3 else 1;
      if parts[0] == "-" || parts[1] == "-" then Ok((path, Stat(None, None, true), size))
      else
        var a, d := ParseNat(parts[0]), ParseNat(parts[1]);
        if a.None? || d.None? then Err(NotANumber) else Ok((path, Stat(a, d, false), size))
  }

  function NumstatOf(fields: seq<string>, sofar: map<string, Stat>): Result<map<string, Stat>>
    decreases |fields|
  {
    if fields == [] then Ok(sofar)
    else
      var r := NumstatRecord(fields);
      if r.Err? then Err(r.error)
      else if 0 < r.value.2 <= |fields| then NumstatOf(fields[r.value.2..], sofar[r.value.0 := r.value.1])
      else Err(Truncated)
  }

  function RawRecord(fields: seq<string>): Result<(string, Modes, nat)>
    requires fields != []
  {
    if !(":" <= fields[0]) then Err(Malformed)
    else
      var pieces := SplitWords(fields[0][1..], "");
      if |pieces| != 5 then Err(Malformed)
      else
        var size := if IsMove(pieces[4]) then 3 else 2;
        if |fields| < size then Err(Truncated)
        else Ok((fields[size - 1], Modes(pieces[0], pieces[1], pieces[2], pieces[3]), size))
  }

  function RawOf(fields: seq<string>, sofar: map<string, Modes>): Result<map<string, Modes>>
    decreases |fields|
  {
    if fields == [] then Ok(sofar)
    else
      var r := RawRecord(fields);
      if r.Err? then Err(r.error)
      else if 0 < r.value.2 <= |fields| then RawOf(fields[r.value.2..], sofar[r.value.0 := r.value.1])
      else Err(Truncated)
  }

  // ---------------------------------------------------------------- the parsers, as written

  method ParseNameStatus(raw: string) returns (r: Result<seq<Change>>)
    ensures r == NameStatusOf(Fields(raw))
  {
    var fields := Fields(raw);
    var changes: seq<Change> := [];
    var index := 0;
    assert fields[0..] == fields;
    NothingBefore(NameStatusOf(fields));
    while index < |fields|
      invariant index <= |fields|
      invariant NameStatusOf(fields) ==
                var rest := NameStatusOf(fields[index..]);
                if rest.Err? then rest else Ok(changes + rest.value)
    {
      var here := fields[index..];
      var status := fields[index];
      if status == "" { return Err(EmptyStatus); }
      if IsMove(status) {
        if index + 2 >= |fields| { return Err(Truncated); }
        assert here[3..] == fields[index + 3..];
        var change := Change(status, fields[index + 2], Some(fields[index + 1]));
        AppendAssoc(changes, change, NameStatusOf(fields[index + 3..]));
        changes := changes + [change];
        index := index + 3;
      } else {
        if index + 1 >= |fields| { return Err(Truncated); }
        assert here[2..] == fields[index + 2..];
        var change := Change(status, fields[index + 1], None);
        AppendAssoc(changes, change, NameStatusOf(fields[index + 2..]));
        changes := changes + [change];
        index := index + 2;
      }
    }
    assert fields[index..] == [] && changes + [] == changes;
    return Ok(changes);
  }

  lemma NothingBefore(rest: Result<seq<Change>>)
    ensures rest.Ok? ==> [] + rest.value == rest.value
  {
  }

  lemma AppendAssoc(changes: seq<Change>, change: Change, rest: Result<seq<Change>>)
    ensures rest.Ok? ==> changes + ([change] + rest.value) == (changes + [change]) + rest.value
  {
  }

  method ParseNumstat(raw: string) returns (r: Result<map<string, Stat>>)
    ensures r == NumstatOf(Fields(raw), map[])
  {
    hide SplitTabs, ParseNat, Fields;
    var fields := Fields(raw);
    var stats: map<string, Stat> := map[];
    var index := 0;
    while index < |fields|
      invariant index <= |fields|
      invariant NumstatOf(fields, map[]) == NumstatOf(fields[index..], stats)
    {
      ghost var here := fields[index..];
      var parts := SplitTabs(fields[index], 2);
      index := index + 1;
      if |parts| != 3 { return Err(Malformed); }
      var path := parts[2];
      if path == "" {
        if index + 1 >= |fields| { return Err(Truncated); }
        index := index + 1;
        path := fields[index];
        index := index + 1;
      }
      var binary := parts[0] == "-" || parts[1] == "-";
      var stat := Stat(None, None, true);
      if !binary {
        var a, d := ParseNat(parts[0]), ParseNat(parts[1]);
        if a.None? || d.None? { return Err(NotANumber); }
        stat := Stat(a, d, false);
      }
      stats := stats[path := stat];
      assert here[if parts[2] == "" then 3 else 1..] == fields[index..];
    }
    assert fields[index..] == [];
    return Ok(stats);
  }

  method ParseRawModes(raw: string) returns (r: Result<map<string, Modes>>)
    ensures r == RawOf(Fields(raw), map[])
  {
    hide SplitWords, Fields;
    var fields := Fields(raw);
    var modes: map<string, Modes> := map[];
    var index := 0;
    while index < |fields|
      invariant index <= |fields|
      invariant RawOf(fields, map[]) == RawOf(fields[index..], modes)
    {
      ghost var here := fields[index..];
      var header := fields[index];
      index := index + 1;
      if !(":" <= header) { return Err(Malformed); }
      var pieces := SplitWords(header[1..], "");
      if |pieces| != 5 { return Err(Malformed); }
      if IsMove(pieces[4]) {
        if index + 1 >= |fields| { return Err(Truncated); }
        index := index + 1;
      } else if index >= |fields| {
        return Err(Truncated);
      }
      modes := modes[fields[index] := Modes(pieces[0], pieces[1], pieces[2], pieces[3])];
      index := index + 1;
      assert here[if IsMove(pieces[4]) then 3 else 2..] == fields[index..];
    }
    assert fields[index..] == [];
    return Ok(modes);
  }

  // ---------------------------------------------------------------- round trips

  function FieldsOfAll(changes: seq<FileChange>, print_: FileChange -> seq<string>): seq<string> {
    if changes == [] then [] else print_(changes[0]) + FieldsOfAll(changes[1..], print_)
  }

  function Listed(changes: seq<FileChange>): seq<Change> {
    seq(|changes|, i requires 0 <= i < |changes| => Change(changes[i].status, changes[i].path, changes[i].oldPath))
  }

  ghost predicate AllPossible(changes: seq<FileChange>) {
    && (forall i | 0 <= i < |changes| :: Possible(changes[i]))
    && (forall i, j | 0 <= i < j < |changes| :: changes[i].path != changes[j].path)
  }

  lemma {:induction false} NameStatusFieldsBack(changes: seq<FileChange>)
    requires forall i | 0 <= i < |changes| :: Possible(changes[i])
    ensures NameStatusOf(FieldsOfAll(changes, NameStatusFields)) == Ok(Listed(changes))
    decreases |changes|
  {
    hide IsWord, IsPath;
    if changes != [] {
      var c, rest := changes[0], FieldsOfAll(changes[1..], NameStatusFields);
      NameStatusFieldsBack(changes[1..]);
      var fields := NameStatusFields(c) + rest;
      StatusNotEmpty(c);
      if c.oldPath.Some? {
        assert fields == [c.status, c.oldPath.value, c.path] + rest && fields[3..] == rest;
      } else {
        assert fields == [c.status, c.path] + rest && fields[2..] == rest;
      }
      assert Listed(changes) == [Change(c.status, c.path, c.oldPath)] + Listed(changes[1..]);
    }
  }

  lemma StatusNotEmpty(c: FileChange)
    requires Possible(c)
    ensures c.status != "" && c.path != ""
  {
  }

  lemma CounterFacts(n: Option<nat>)
    ensures '\t' !in Counter(n) && NUL !in Counter(n) && Counter(n) != ""
    ensures Counter(n) == "-" <==> n.None?
    ensures n.Some? ==> ParseNat(Counter(n)) == n
  {
    if n.Some? { ParseDecimal(n.value); }
  }

  lemma NumstatRecordBack(c: FileChange, rest: seq<string>)
    requires Possible(c)
    ensures
      var fields := NumstatFields(c) + rest;
      && fields != []
      && NumstatRecord(fields) == Ok((c.path, c.stat, if c.oldPath.Some? then 3 else 1))
      && fields[if c.oldPath.Some? then 3 else 1..] == rest
  {
    hide ParseNat, SplitTabs, Counter, IsWord;
    var a, d := Counter(c.stat.additions), Counter(c.stat.deletions);
    CounterFacts(c.stat.additions);
    CounterFacts(c.stat.deletions);
    var fields := NumstatFields(c) + rest;
    var last := if c.oldPath.Some? then "" else c.path;
    assert fields[0] == a + "\t" + (d + "\t" + last) by {
      if c.oldPath.Some? {
        assert d + "\t" + "" == d + "\t";
      } else {
        assert a + "\t" + (d + "\t") + c.path == a + "\t" + (d + "\t" + c.path);
      }
    }
    SplitAtTab(a, d + "\t" + last, 2);
    SplitAtTab(d, last, 1);
    NoMoreTabs(last);
    assert [a] + ([d] + [last]) == [a, d, last];
  }

  lemma NoMoreTabs(text: string)
    ensures SplitTabs(text, 0) == [text]
  {
  }

  lemma RawRecordBack(c: FileChange, rest: seq<string>)
    requires Possible(c)
    ensures
      var fields := RawFields(c) + rest;
      var size := if c.oldPath.Some? then 3 else 2;
      && fields != []
      && RawRecord(fields) == Ok((c.path, c.modes, size))
      && fields[size..] == rest
  {
    hide SplitWords, JoinWords, IsWord;
    var words := [c.modes.oldMode, c.modes.newMode, c.modes.oldOid, c.modes.newOid, c.status];
    var fields := RawFields(c) + rest;
    SplitJoined(words);
    assert fields[0] == ":" + JoinWords(words);
    assert fields[0][1..] == JoinWords(words);
  }

  /** The map from each listed path to what was printed for it. */
  function PathMap<T>(changes: seq<FileChange>, value: FileChange -> T): map<string, T> {
    if changes == [] then map[]
    else PathMap(changes[..|changes| - 1], value)[changes[|changes| - 1].path := value(changes[|changes| - 1])]
  }

  function StatOf(c: FileChange): Stat { c.stat }
  function ModesOf(c: FileChange): Modes { c.modes }

  lemma {:induction false} NumstatBack(done: seq<FileChange>, changes: seq<FileChange>)
    requires forall i | 0 <= i < |changes| :: Possible(changes[i])
    ensures NumstatOf(FieldsOfAll(changes, NumstatFields), PathMap(done, StatOf)) == Ok(PathMap(done + changes, StatOf))
    decreases |changes|
  {
    hide NumstatRecord, Possible;
    if changes == [] {
      assert done + changes == done;
    } else {
      var c, more := changes[0], done + [changes[0]];
      NumstatRecordBack(c, FieldsOfAll(changes[1..], NumstatFields));
      assert more[..|done|] == done;
      NumstatBack(more, changes[1..]);
      assert more + changes[1..] == done + changes;
      assert |NumstatFields(c)| == if c.oldPath.Some? then 3 else 1;
    }
  }

  lemma {:induction false} RawBack(done: seq<FileChange>, changes: seq<FileChange>)
    requires forall i | 0 <= i < |changes| :: Possible(changes[i])
    ensures RawOf(FieldsOfAll(changes, RawFields), PathMap(done, ModesOf)) == Ok(PathMap(done + changes, ModesOf))
    decreases |changes|
  {
    hide RawRecord, Possible;
    if changes == [] {
      assert done + changes == done;
    } else {
      var c, more := changes[0], done + [changes[0]];
      RawRecordBack(c, FieldsOfAll(changes[1..], RawFields));
      assert more[..|done|] == done;
      RawBack(more, changes[1..]);
      assert more + changes[1..] == done + changes;
      assert |RawFields(c)| == if c.oldPath.Some? then 3 else 2;
    }
  }

  lemma {:induction false} PathMapAt<T>(changes: seq<FileChange>, value: FileChange -> T)
    requires forall i, j | 0 <= i < j < |changes| :: changes[i].path != changes[j].path
    ensures forall i | 0 <= i < |changes| ::
              changes[i].path in PathMap(changes, value) &&
              PathMap(changes, value)[changes[i].path] == value(changes[i])
    ensures forall p | p in PathMap(changes, value) :: exists i :: 0 <= i < |changes| && changes[i].path == p
    decreases |changes|
  {
    if changes != [] {
      var n := |changes| - 1;
      PathMapAt(changes[..n], value);
      forall p | p in PathMap(changes, value) ensures exists i :: 0 <= i < |changes| && changes[i].path == p {
        if p == changes[n].path {
        } else {
          var i :| 0 <= i < n && changes[..n][i].path == p;
          assert changes[i].path == p;
        }
      }
    }
  }

  lemma {:induction false} FieldsHaveNoNul(changes: seq<FileChange>, print_: FileChange -> seq<string>)
    requires forall i, k | 0 <= i < |changes| && 0 <= k < |print_(changes[i])| :: NUL !in print_(changes[i])[k]
    ensures forall k | 0 <= k < |FieldsOfAll(changes, print_)| :: NUL !in FieldsOfAll(changes, print_)[k]
    decreases |changes|
  {
    if changes != [] {
      forall i, k | 0 <= i < |changes[1..]| && 0 <= k < |print_(changes[1..][i])|
        ensures NUL !in print_(changes[1..][i])[k]
      {
        assert changes[1..][i] == changes[i + 1];
      }
      FieldsHaveNoNul(changes[1..], print_);
    }
  }

  lemma PrintedWithoutNul(c: FileChange)
    requires Possible(c)
    ensures forall k | 0 <= k < |NameStatusFields(c)| :: NUL !in NameStatusFields(c)[k]
    ensures forall k | 0 <= k < |NumstatFields(c)| :: NUL !in NumstatFields(c)[k]
    ensures forall k | 0 <= k < |RawFields(c)| :: NUL !in RawFields(c)[k]
  {
    hide JoinWords, Counter;
    CounterFacts(c.stat.additions);
    CounterFacts(c.stat.deletions);
    JoinedWithoutNul([c.modes.oldMode, c.modes.newMode, c.modes.oldOid, c.modes.newOid, c.status]);
  }

  lemma {:induction false} JoinedWithoutNul(words: seq<string>)
    requires forall i | 0 <= i < |words| :: NUL !in words[i]
    ensures NUL !in JoinWords(words)
  {
    if |words| > 1 { JoinedWithoutNul(words[1..]); }
  }

  /** Each parser recovers exactly what git printed: the changes in order, and for every listed path,
      and no other, its line counts and its modes. */
  lemma ParsersInvertGit(changes: seq<FileChange>)
    requires AllPossible(changes)
    ensures NameStatusOf(Fields(Terminated(FieldsOfAll(changes, NameStatusFields)))) == Ok(Listed(changes))
    ensures NumstatOf(Fields(Terminated(FieldsOfAll(changes, NumstatFields))), map[]) == Ok(PathMap(changes, StatOf))
    ensures RawOf(Fields(Terminated(FieldsOfAll(changes, RawFields))), map[]) == Ok(PathMap(changes, ModesOf))
  {
    hide Possible, Fields, NameStatusFields, NumstatFields, RawFields;
    forall i | 0 <= i < |changes| { PrintedWithoutNul(changes[i]); }
    FieldsHaveNoNul(changes, NameStatusFields);
    FieldsHaveNoNul(changes, NumstatFields);
    FieldsHaveNoNul(changes, RawFields);
    SplitTerminated(FieldsOfAll(changes, NameStatusFields));
    SplitTerminated(FieldsOfAll(changes, NumstatFields));
    SplitTerminated(FieldsOfAll(changes, RawFields));
    NameStatusFieldsBack(changes);
    NumstatBack([], changes);
    RawBack([], changes);
    assert [] + changes == changes;
  }

  /** A name-status list that lost its last field is refused, never read as a shorter list. */
  lemma {:induction false} CutIsRefused(changes: seq<FileChange>)
    requires changes != [] && forall i | 0 <= i < |changes| :: Possible(changes[i])
    ensures
      var fields := FieldsOfAll(changes, NameStatusFields);
      fields != [] && NameStatusOf(fields[..|fields| - 1]) == Err(Truncated)
    decreases |changes|
  {
    hide IsWord, IsPath;
    var c, rest := changes[0], FieldsOfAll(changes[1..], NameStatusFields);
    var first := NameStatusFields(c);
    var fields := first + rest;
    StatusNotEmpty(c);
    if |changes| == 1 {
      assert fields == first;
    } else {
      CutIsRefused(changes[1..]);
      var cut := fields[..|fields| - 1];
      assert cut == first + rest[..|rest| - 1];
      assert cut[|first|..] == rest[..|rest| - 1];
    }
  }

  // ---------------------------------------------------------------- what is refused

  lemma {:induction false} StatusReaches(changes: seq<FileChange>, bad: seq<string>)
    requires (forall i | 0 <= i < |changes| :: Possible(changes[i])) && NameStatusOf(bad).Err?
    ensures NameStatusOf(FieldsOfAll(changes, NameStatusFields) + bad) == NameStatusOf(bad)
    decreases |changes|
  {
    hide IsWord, IsPath;
    if changes == [] {
      assert [] + bad == bad;
    } else {
      var c, rest := changes[0], FieldsOfAll(changes[1..], NameStatusFields) + bad;
      StatusReaches(changes[1..], bad);
      StatusNotEmpty(c);
      var fields := NameStatusFields(c) + rest;
      assert FieldsOfAll(changes, NameStatusFields) + bad == fields;
      assert fields[|NameStatusFields(c)|..] == rest && |NameStatusFields(c)| == if IsMove(c.status) then 3 else 2;
    }
  }

  lemma {:induction false} NumstatReaches(changes: seq<FileChange>, bad: seq<string>, sofar: map<string, Stat>)
    requires (forall i | 0 <= i < |changes| :: Possible(changes[i])) && bad != [] && NumstatRecord(bad).Err?
    ensures NumstatOf(FieldsOfAll(changes, NumstatFields) + bad, sofar) == Err(NumstatRecord(bad).error)
    decreases |changes|
  {
    hide NumstatRecord, Possible;
    if changes == [] {
      assert [] + bad == bad;
    } else {
      var c, rest := changes[0], FieldsOfAll(changes[1..], NumstatFields) + bad;
      NumstatRecordBack(c, rest);
      NumstatReaches(changes[1..], bad, sofar[c.path := c.stat]);
      assert FieldsOfAll(changes, NumstatFields) + bad == NumstatFields(c) + rest;
      assert |NumstatFields(c)| == if c.oldPath.Some? then 3 else 1;
    }
  }

  lemma {:induction false} RawReaches(changes: seq<FileChange>, bad: seq<string>, sofar: map<string, Modes>)
    requires (forall i | 0 <= i < |changes| :: Possible(changes[i])) && bad != [] && RawRecord(bad).Err?
    ensures RawOf(FieldsOfAll(changes, RawFields) + bad, sofar) == Err(RawRecord(bad).error)
    decreases |changes|
  {
    hide RawRecord, Possible;
    if changes == [] {
      assert [] + bad == bad;
    } else {
      var c, rest := changes[0], FieldsOfAll(changes[1..], RawFields) + bad;
      RawRecordBack(c, rest);
      RawReaches(changes[1..], bad, sofar[c.path := c.modes]);
      assert FieldsOfAll(changes, RawFields) + bad == RawFields(c) + rest;
      assert |RawFields(c)| == if c.oldPath.Some? then 3 else 2;
    }
  }

  /** Behind any changes: an empty status, and a change without its path or paths. */
  lemma StatusRefused(changes: seq<FileChange>, bad: seq<string>)
    requires (forall i | 0 <= i < |changes| :: Possible(changes[i])) && bad != []
    ensures
      var r := NameStatusOf(FieldsOfAll(changes, NameStatusFields) + bad);
      && (bad[0] == "" ==> r == Err(EmptyStatus))
      && (bad[0] != "" && |bad| == 1 ==> r == Err(Truncated))
      && (bad[0] != "" && bad[0][0] in {'R', 'C'} && |bad| == 2 ==> r == Err(Truncated))
  {
    hide Possible;
    if NameStatusOf(bad).Err? {
      StatusReaches(changes, bad);
    }
  }

  predicate IsDigits(s: string) {
    s != "" && forall i | 0 <= i < |s| :: '0' <= s[i] <= '9'
  }

  lemma {:induction false} DigitsParse(s: string, sofar: nat)
    ensures ParseDigits(s, sofar).Some? <==> forall i | 0 <= i < |s| :: '0' <= s[i] <= '9'
    decreases |s|
  {
    if s != "" && '0' <= s[0] <= '9' {
      DigitsParse(s[1..], sofar * 10 + (s[0] as int - '0' as int));
      assert forall i | 0 < i < |s| :: s[i] == s[1..][i - 1];
    }
  }

  lemma TwoTabs(a: string, d: string, path: string)
    requires '\t' !in a && '\t' !in d
    ensures SplitTabs(a + "\t" + (d + "\t" + path), 2) == [a, d, path]
  {
    hide SplitTabs;
    SplitAtTab(a, d + "\t" + path, 2);
    SplitAtTab(d, path, 1);
    NoMoreTabs(path);
    assert [a] + ([d] + [path]) == [a, d, path];
  }

  lemma FewTabs(a: string, d: string)
    requires '\t' !in a && '\t' !in d
    ensures SplitTabs(a, 2) == [a] && SplitTabs(a + "\t" + d, 2) == [a, d]
  {
    SplitAtTab(a, d, 2);
    assert FindTab(a, 0) == |a| && FindTab(d, 0) == |d|;
  }

  /** Behind any changes: line counts with less than two tabs, a move without its two paths, and a count
      that is neither digits nor the mark of a binary file. */
  lemma NumstatRefused(changes: seq<FileChange>, a: string, d: string, path: string, rest: seq<string>)
    requires forall i | 0 <= i < |changes| :: Possible(changes[i])
    requires '\t' !in a && '\t' !in d
    ensures
      var before := FieldsOfAll(changes, NumstatFields);
      && NumstatOf(before + ([a] + rest), map[]) == Err(Malformed)
      && NumstatOf(before + ([a + "\t" + d] + rest), map[]) == Err(Malformed)
      && (|rest| < 2 ==> NumstatOf(before + ([a + "\t" + (d + "\t" + "")] + rest), map[]) == Err(Truncated))
      && (a != "-" && d != "-" && !(IsDigits(a) && IsDigits(d)) && (path != "" || |rest| >= 2) ==>
            NumstatOf(before + ([a + "\t" + (d + "\t" + path)] + rest), map[]) == Err(NotANumber))
  {
    hide Possible, SplitTabs, NumstatOf, FieldsOfAll, ParseDigits;
    FewTabs(a, d);
    TwoTabs(a, d, "");
    TwoTabs(a, d, path);
    DigitsParse(a, 0);
    DigitsParse(d, 0);
    NumstatReaches(changes, [a] + rest, map[]);
    NumstatReaches(changes, [a + "\t" + d] + rest, map[]);
    if |rest| < 2 {
      NumstatReaches(changes, [a + "\t" + (d + "\t" + "")] + rest, map[]);
    }
    if a != "-" && d != "-" && !(IsDigits(a) && IsDigits(d)) && (path != "" || |rest| >= 2) {
      NumstatReaches(changes, [a + "\t" + (d + "\t" + path)] + rest, map[]);
    }
  }

  /** Behind any changes: a header without its colon, one with other than five words, and a change without
      its path or paths. */
  lemma RawRefused(changes: seq<FileChange>, header: string, words: seq<string>, rest: seq<string>)
    requires forall i | 0 <= i < |changes| :: Possible(changes[i])
    requires forall i | 0 <= i < |words| :: IsWord(words[i])
    ensures
      var before := FieldsOfAll(changes, RawFields);
      var bad := [":" + JoinWords(words)] + rest;
      && (header == "" || header[0] != ':' ==> RawOf(before + ([header] + rest), map[]) == Err(Malformed))
      && (|words| != 5 ==> RawOf(before + bad, map[]) == Err(Malformed))
      && (|words| == 5 && rest == [] ==> RawOf(before + bad, map[]) == Err(Truncated))
      && (|words| == 5 && words[4] != "" && words[4][0] in {'R', 'C'} && |rest| == 1 ==>
            RawOf(before + bad, map[]) == Err(Truncated))
  {
    hide Possible, SplitWords, JoinWords, RawOf, FieldsOfAll;
    SplitJoined(words);
    var bad := [":" + JoinWords(words)] + rest;
    assert bad[0][1..] == JoinWords(words);
    if header == "" || header[0] != ':' {
      RawReaches(changes, [header] + rest, map[]);
    }
    if RawRecord(bad).Err? {
      RawReaches(changes, bad, map[]);
    }
  }

  // ---------------------------------------------------------------- the join

  /** A change with what the other two outputs say about its path. */
  datatype Joined = Joined(change: Change, stat: Option<Stat>, modes: Option<Modes>, symlink: bool, gitlink: bool)

  function JoinOne(change: Change, stats: map<string, Stat>, modes: map<string, Modes>): Joined {
    var m := if change.path in modes then Some(modes[change.path]) else None;
    Joined(change, if change.path in stats then Some(stats[change.path]) else None, m,
           m.Some? && (m.value.oldMode == "120000" || m.value.newMode == "120000"),
           m.Some? && (m.value.oldMode == "160000" || m.value.newMode == "160000"))
  }

  /** The loop of `collect_diff_layer`. */
  method Join(changes: seq<Change>, stats: map<string, Stat>, modes: map<string, Modes>)
    returns (joined: seq<Joined>, warnings: seq<string>)
    ensures |joined| == |changes| && forall i | 0 <= i < |changes| :: joined[i] == JoinOne(changes[i], stats, modes)
    ensures forall w | w in warnings :: exists i :: 0 <= i < |changes| && changes[i].path == w && w !in stats
    ensures forall i | 0 <= i < |changes| && changes[i].path !in stats :: changes[i].path in warnings
    ensures warnings == [] <==> forall i | 0 <= i < |changes| :: changes[i].path in stats
  {
    joined, warnings := [], [];
    for i := 0 to |changes|
      invariant |joined| == i && forall j | 0 <= j < i :: joined[j] == JoinOne(changes[j], stats, modes)
      invariant forall w | w in warnings :: exists j :: 0 <= j < i && changes[j].path == w && w !in stats
      invariant forall j | 0 <= j < i && changes[j].path !in stats :: changes[j].path in warnings
      invariant warnings == [] <==> forall j | 0 <= j < i :: changes[j].path in stats
    {
      if changes[i].path !in stats {
        warnings := warnings + [changes[i].path];
      }
      joined := joined + [JoinOne(changes[i], stats, modes)];
    }
  }

  lemma JoinedAt(change: Change, stats: map<string, Stat>, modes: map<string, Modes>)
    requires change.path in stats && change.path in modes
    ensures
      var j := JoinOne(change, stats, modes);
      && j.change == change && j.stat == Some(stats[change.path]) && j.modes == Some(modes[change.path])
      && (j.symlink <==> "120000" in {modes[change.path].oldMode, modes[change.path].newMode})
      && (j.gitlink <==> "160000" in {modes[change.path].oldMode, modes[change.path].newMode})
  {
  }

  /** From git's three outputs to the joined list: no warning, and each change carries its own counts and modes. */
  method CollectDiffLayer(nameRaw: string, numstatRaw: string, rawModes: string, ghost changes: seq<FileChange>)
    returns (joined: seq<Joined>, warnings: seq<string>)
    requires AllPossible(changes)
    requires nameRaw == Terminated(FieldsOfAll(changes, NameStatusFields))
    requires numstatRaw == Terminated(FieldsOfAll(changes, NumstatFields))
    requires rawModes == Terminated(FieldsOfAll(changes, RawFields))
    ensures warnings == [] && |joined| == |changes|
    ensures forall i | 0 <= i < |changes| ::
              && joined[i].change == Change(changes[i].status, changes[i].path, changes[i].oldPath)
              && joined[i].stat == Some(changes[i].stat) && joined[i].modes == Some(changes[i].modes)
              && (joined[i].symlink <==> "120000" in {changes[i].modes.oldMode, changes[i].modes.newMode})
              && (joined[i].gitlink <==> "160000" in {changes[i].modes.oldMode, changes[i].modes.newMode})
  {
    hide Possible, Fields, NameStatusOf, NumstatOf, RawOf, Terminated, PathMap, FieldsOfAll, JoinOne;
    ParsersInvertGit(changes);
    var names := ParseNameStatus(nameRaw);
    var stats := ParseNumstat(numstatRaw);
    var modes := ParseRawModes(rawModes);
    PathMapAt(changes, StatOf);
    PathMapAt(changes, ModesOf);
    joined, warnings := Join(names.value, stats.value, modes.value);
    forall i | 0 <= i < |changes| {
      JoinedAt(names.value[i], stats.value, modes.value);
    }
  }
}
