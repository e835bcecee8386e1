/**
 * The per-problem progressive-hint store of the React front end
 * (frontend-react/lib/hints.ts).
 *
 * One browser-storage entry, under the key `tutorpy_hints`, holds a JSON
 * dictionary from problem id to the hint record of that problem. The id is
 * `"problem_"` followed by the absolute value of a 32-bit rolling hash of the
 * problem text over its UTF-16 code units.
 */
module Hints {
  import opened Wrappers
  import opened JsString

  /** One hint the tutor gave, with the level it was given at. */
  datatype HintHistory = HintHistory(level: int, hint: string, timestamp: int)

  /** The hint record of one problem. */
  datatype ProblemHints = ProblemHints(problemId: string, problem: string, hints: seq<HintHistory>, currentLevel: int)

  /**
   * The `tutorpy_hints` storage entry: missing (or empty), text that does not
   * parse as JSON, or a parsed dictionary of records.
   */
  datatype Stored = Absent | Corrupt | Parsed(records: map<string, ProblemHints>)

  const StorageKey := "tutorpy_hints"
  const NoHintsText := "No previous hints given."
  const IdPrefix := "problem_"

  const Two31: int := 0x8000_0000
  const Two32: int := 0x1_0000_0000

  // ---------------------------------------------------------------------------
  // 32-bit integer arithmetic as JavaScript's bit operators perform it

  /** ECMAScript ToInt32: the signed 32-bit integer congruent to `x` modulo 2^32. */
  function ToInt32(x: int): (r: int)
    ensures -Two31 <= r < Two31
    ensures (x - r) % Two32 == 0
  {
    var m := x % Two32;
    if m >= Two31 then m - Two32 else m
  }

  /** Congruent integers convert to the same 32-bit value. */
  lemma ToInt32Congruent(x: int, y: int)
    requires (x - y) % Two32 == 0
    ensures ToInt32(x) == ToInt32(y)
  {
    var q := (x - y) / Two32;
    assert x == y + q * Two32;
    assert x % Two32 == y % Two32;
  }

  /** `h << 5` on a JavaScript number. */
  function ShiftLeft5(h: int): int {
    ToInt32(ToInt32(h) * 32)
  }

  /** `((h << 5) - h) + c` followed by `h & h` is 31 * h + c wrapped to 32 bits. */
  lemma HashStepIsWrapped(h: int, c: int)
    ensures ToInt32(ShiftLeft5(h) - h + c) == ToInt32(31 * h + c)
  {
    var w := ToInt32(h);
    var s := ShiftLeft5(h);
    var a := MultipleOfTwo32(h - w);
    var b := MultipleOfTwo32(w * 32 - s);
    assert s - h + c == (31 * h + c) + (-(32 * a + b)) * Two32;
    ToInt32Shift(31 * h + c, -(32 * a + b));
  }

  /** A multiple of 2^32 is `k * 2^32` for some `k`. */
  lemma MultipleOfTwo32(x: int) returns (k: int)
    requires x % Two32 == 0
    ensures x == k * Two32
  {
    k := x / Two32;
  }

  /** Adding a multiple of 2^32 does not change the 32-bit value. */
  lemma ToInt32Shift(y: int, k: int)
    ensures ToInt32(y + k * Two32) == ToInt32(y)
  {
    ToInt32Congruent(y + k * Two32, y);
  }

  // ---------------------------------------------------------------------------
  // Problem ids

  /** The UTF-16 code units of one character, as `charCodeAt` reports them. */
  function CodeUnits(c: char): (u: seq<int>)
    ensures 1 <= |u| <= 2
    ensures forall k :: 0 <= k < |u| ==> 0 <= u[k] < 0x10000
    ensures |u| == 1 <==> c as int < 0x10000
    ensures |u| == 1 ==> u[0] == c as int
  {
    var v := c as int;
    if v < 0x10000 then [v]
    else [0xD800 + (v - 0x10000) / 0x400, 0xDC00 + (v - 0x10000) % 0x400]
  }

  /** The UTF-16 code units of a string: what `length` counts and `charCodeAt` reads. */
  function Utf16(s: string): (u: seq<int>)
    ensures |u| >= |s|
    ensures forall k :: 0 <= k < |u| ==> 0 <= u[k] < 0x10000
    decreases |s|
  {
    if s == [] then [] else Utf16(s[..|s| - 1]) + CodeUnits(s[|s| - 1])
  }

  /** Text made only of characters below U+10000 has one code unit per character. */
  lemma {:induction false} Utf16OfBasicText(s: string)
    requires forall i :: 0 <= i < |s| ==> s[i] as int < 0x10000
    ensures |Utf16(s)| == |s|
    ensures forall i :: 0 <= i < |s| ==> Utf16(s)[i] == s[i] as int
    decreases |s|
  {
    if s != [] {
      Utf16OfBasicText(s[..|s| - 1]);
    }
  }

  /** The rolling hash after reading `units`, starting from 0. */
  function Hash(units: seq<int>): (h: int)
    ensures -Two31 <= h < Two31
    decreases |units|
  {
    if units == [] then 0 else ToInt32(31 * Hash(units[..|units| - 1]) + units[|units| - 1])
  }

  function Abs(x: int): nat {
    if x < 0 then -x else x
  }

  /** The id `getProblemId` computes for a problem text. */
  function ProblemIdOf(problem: string): (id: string)
    ensures StartsWith(id, IdPrefix) && |id| > |IdPrefix|
    ensures forall k :: |IdPrefix| <= k < |id| ==> IsDigit(id[k])
  {
    IdPrefix + NatToString(Abs(Hash(Utf16(problem))))
  }

  /** `getProblemId`: the hash loop over the code units, then `problem_` and `Math.abs(hash)`. */
  method GetProblemId(problem: string) returns (id: string)
    ensures id == ProblemIdOf(problem)
  {
    var units := Utf16(problem);
    var hash := 0;
    var i := 0;
    while i < |units|
      invariant 0 <= i <= |units|
      invariant hash == Hash(units[..i])
    {
      var c := units[i];
      HashStepIsWrapped(hash, c);
      assert units[..i + 1][..i] == units[..i];
      hash := ShiftLeft5(hash) - hash + c;
      hash := ToInt32(hash);
      i := i + 1;
    }
    assert units[..i] == units;
    id := IdPrefix + NatToString(Abs(hash));
  }

  /**
   * An id is `problem_` followed by decimal digits that denote the absolute
   * hash, at most 2^31.
   */
  lemma ProblemIdShape(problem: string)
    ensures StartsWith(ProblemIdOf(problem), IdPrefix)
    ensures var digits := ProblemIdOf(problem)[|IdPrefix|..];
      && |digits| >= 1
      && (forall i :: 0 <= i < |digits| ==> IsDigit(digits[i]))
      && DecimalValue(digits) == Abs(Hash(Utf16(problem)))
      && DecimalValue(digits) <= Two31
  {
    var n := Abs(Hash(Utf16(problem)));
    assert ProblemIdOf(problem)[|IdPrefix|..] == NatToString(n);
    NatToStringRoundTrip(n);
  }

  /** Two problems share an id exactly when their hashes have the same absolute value. */
  lemma SameIdIff(p: string, q: string)
    ensures ProblemIdOf(p) == ProblemIdOf(q) <==> Abs(Hash(Utf16(p))) == Abs(Hash(Utf16(q)))
  {
    var a, b := Abs(Hash(Utf16(p))), Abs(Hash(Utf16(q)));
    if ProblemIdOf(p) == ProblemIdOf(q) {
      assert ProblemIdOf(p)[|IdPrefix|..] == NatToString(a);
      assert ProblemIdOf(q)[|IdPrefix|..] == NatToString(b);
      NatToStringInjective(a, b);
    }
  }

  /** The empty problem hashes to 0. */
  lemma EmptyProblemId()
    ensures ProblemIdOf("") == "problem_0"
  {
  }

  /** "Aa" and "BB" collide: 65 * 31 + 97 == 66 * 31 + 66 == 2112. */
  lemma CollidingProblems()
    ensures ProblemIdOf("Aa") == ProblemIdOf("BB") == "problem_2112"
  {
    assert "Aa" == ['A', 'a'] && "BB" == ['B', 'B'];
    TwoCharHash('A', 'a');
    TwoCharHash('B', 'B');
    SmallToInt32(2112);
    Decimal2112();
  }

  lemma Decimal2112()
    ensures NatToString(2112) == "2112"
  {
    assert NatToString(2) == "2";
    assert NatToString(21) == "21";
    assert NatToString(211) == "211";
  }

  /** The hash of a two-character text below U+10000. */
  lemma TwoCharHash(x: char, y: char)
    requires x as int < 0x10000 && y as int < 0x10000
    ensures Hash(Utf16([x, y])) == ToInt32(31 * (x as int) + y as int)
  {
    TwoCharUnits(x, y);
    TwoUnitHash(x as int, y as int);
  }

  lemma TwoCharUnits(x: char, y: char)
    requires x as int < 0x10000 && y as int < 0x10000
    ensures Utf16([x, y]) == [x as int, y as int]
  {
    assert CodeUnits(x) == [x as int] && CodeUnits(y) == [y as int];
    assert [x, y][..1] == [x];
    assert [x][..0] == [];
    assert Utf16([x]) == [] + CodeUnits(x);
  }

  lemma TwoUnitHash(a: int, b: int)
    requires 0 <= a < Two31
    ensures Hash([a, b]) == ToInt32(31 * a + b)
  {
    assert [a, b][..1] == [a];
    assert [a][..0] == [];
    SmallToInt32(a);
    assert Hash([a]) == a;
  }

  /** Values already in 32-bit range are left as they are. */
  lemma SmallToInt32(x: int)
    requires -Two31 <= x < Two31
    ensures ToInt32(x) == x
  {
    if x < 0 {
      assert (x + Two32) % Two32 == x + Two32;
    }
  }

  // ---------------------------------------------------------------------------
  // The stored dictionary, as values

  /** The record `getProblemHints` makes up when none is stored. */
  function Fresh(problem: string): (r: ProblemHints)
    ensures r.problem == problem && r.problemId == ProblemIdOf(problem)
    ensures r.hints == [] && r.currentLevel == 0 && WellFormed(r)
  {
    ProblemHints(ProblemIdOf(problem), problem, [], 0)
  }

  /** The dictionary `saveProblemHints` starts from: the parsed one, or an empty one. */
  function Entries(s: Stored): map<string, ProblemHints> {
    if s.Parsed? then s.records else map[]
  }

  /** What `getProblemHints` returns in storage state `s`. */
  function Lookup(s: Stored, problem: string): (r: ProblemHints)
    ensures r == Fresh(problem) || (s.Parsed? && r in s.records.Values)
    ensures r.problemId != ProblemIdOf(problem) ==> s.Parsed? && ProblemIdOf(problem) in s.records
    ensures s.Parsed? && ProblemIdOf(problem) in s.records ==> r == s.records[ProblemIdOf(problem)]
  {
    var id := ProblemIdOf(problem);
    if s.Parsed? && id in s.records then s.records[id] else Fresh(problem)
  }

  /** The storage state after `saveProblemHints(r)`: only key `r.problemId` is written. */
  function Save(s: Stored, r: ProblemHints): (s': Stored)
    ensures s'.Parsed?
    ensures s'.records.Keys == Entries(s).Keys + {r.problemId}
    ensures s'.records[r.problemId] == r
    ensures forall k :: k in Entries(s) && k != r.problemId ==> s'.records[k] == Entries(s)[k]
  {
    Parsed(Entries(s)[r.problemId := r])
  }

  /** The storage state after `resetHints(problem)`: only that problem's key is deleted. */
  function Reset(s: Stored, problem: string): (s': Stored)
    ensures !s.Parsed? ==> s' == s
    ensures s.Parsed? ==> s'.Parsed? && s'.records.Keys == s.records.Keys - {ProblemIdOf(problem)}
    ensures s.Parsed? ==> forall k :: k in s'.records ==> s'.records[k] == s.records[k]
  {
    if s.Parsed? then Parsed(s.records - {ProblemIdOf(problem)}) else s
  }

  /** The record `addHint` builds: one more hint, at the next level. */
  function Appended(r: ProblemHints, hint: string, now: int): (r': ProblemHints)
    ensures r'.problemId == r.problemId && r'.problem == r.problem
    ensures r'.currentLevel == r.currentLevel + 1
    ensures |r'.hints| == |r.hints| + 1 && r'.hints[..|r.hints|] == r.hints
    ensures r'.hints[|r.hints|] == HintHistory(r'.currentLevel, hint, now)
  {
    var level := r.currentLevel + 1;
    r.(hints := r.hints + [HintHistory(level, hint, now)], currentLevel := level)
  }

  /** Every stored record sits under its own id. */
  ghost predicate KeysMatch(s: Stored) {
    s.Parsed? ==> forall k :: k in s.records ==> s.records[k].problemId == k
  }

  /** The level counts the hints, and the hints carry levels 1, 2, ... in order. */
  ghost predicate WellFormed(r: ProblemHints) {
    && r.currentLevel == |r.hints|
    && forall i :: 0 <= i < |r.hints| ==> r.hints[i].level == i + 1
  }

  /** Missing storage, unparseable storage and a missing key all give the zero record. */
  lemma LookupDefaults(s: Stored, problem: string)
    ensures Lookup(Absent, problem) == ProblemHints(ProblemIdOf(problem), problem, [], 0)
    ensures Lookup(Corrupt, problem) == ProblemHints(ProblemIdOf(problem), problem, [], 0)
    ensures s.Parsed? && ProblemIdOf(problem) !in s.records ==>
      Lookup(s, problem) == ProblemHints(ProblemIdOf(problem), problem, [], 0)
  {
  }

  /**
   * Saving a record and reading back any problem with its id returns that
   * record unchanged, even when the problem text differs (a hash collision).
   */
  lemma LookupAfterSave(s: Stored, r: ProblemHints, problem: string)
    requires ProblemIdOf(problem) == r.problemId
    ensures Lookup(Save(s, r), problem) == r
  {
  }

  /** A save leaves what every other problem reads unchanged. */
  lemma SaveLeavesOthers(s: Stored, r: ProblemHints, problem: string)
    requires ProblemIdOf(problem) != r.problemId
    ensures Lookup(Save(s, r), problem) == Lookup(s, problem)
  {
  }

  /** After a reset the problem reads as the zero record. */
  lemma LookupAfterReset(s: Stored, problem: string)
    ensures Lookup(Reset(s, problem), problem) == Fresh(problem)
  {
  }

  /** A reset leaves what every other problem reads unchanged. */
  lemma ResetLeavesOthers(s: Stored, problem: string, other: string)
    requires ProblemIdOf(other) != ProblemIdOf(problem)
    ensures Lookup(Reset(s, problem), other) == Lookup(s, other)
  {
  }

  /** Resetting twice is resetting once. */
  lemma ResetIdempotent(s: Stored, problem: string)
    ensures Reset(Reset(s, problem), problem) == Reset(s, problem)
  {
  }

  /** Saves and resets keep every record under its own id. */
  lemma WritesKeepKeysMatch(s: Stored, r: ProblemHints, problem: string)
    requires KeysMatch(s)
    ensures KeysMatch(Save(s, r))
    ensures KeysMatch(Reset(s, problem))
  {
  }

  /** The record read for a problem sits under that problem's id. */
  lemma LookupId(s: Stored, problem: string)
    requires KeysMatch(s)
    ensures Lookup(s, problem).problemId == ProblemIdOf(problem)
  {
  }

  /** One new hint per call, levels unbounded. */
  datatype NewHint = NewHint(text: string, at: int)

  /** The storage state after `addHint(problem, h.text)` for each `h` of `added`, in order. */
  ghost function AddAll(s: Stored, problem: string, added: seq<NewHint>): Stored
    decreases |added|
  {
    if added == [] then s
    else
      var before := AddAll(s, problem, added[..|added| - 1]);
      var last := added[|added| - 1];
      Save(before, Appended(Lookup(before, problem), last.text, last.at))
  }

  /**
   * `after` is `before` followed by one hint per entry of `added`, at the
   * levels `base + 1`, `base + 2`, ... in order.
   */
  ghost predicate Extends(after: seq<HintHistory>, before: seq<HintHistory>, base: int, added: seq<NewHint>) {
    && |after| == |before| + |added|
    && after[..|before|] == before
    && forall i :: 0 <= i < |added| ==> after[|before| + i] == HintHistory(base + i + 1, added[i].text, added[i].at)
  }

  /** Appending the hint for one more entry extends the layout by that entry. */
  lemma ExtendsByOne(cur: seq<HintHistory>, before: seq<HintHistory>, base: int, init: seq<NewHint>, last: NewHint)
    requires Extends(cur, before, base, init)
    ensures Extends(cur + [HintHistory(base + |init| + 1, last.text, last.at)], before, base, init + [last])
  {
    var after := cur + [HintHistory(base + |init| + 1, last.text, last.at)];
    var added := init + [last];
    assert after[..|before|] == cur[..|before|];
    forall i | 0 <= i < |added|
      ensures after[|before| + i] == HintHistory(base + i + 1, added[i].text, added[i].at)
    {
      if i < |init| {
        assert added[i] == init[i];
        assert after[|before| + i] == cur[|before| + i];
      }
    }
  }

  /** The record after appending one hint per entry of `added`, in order. */
  function AppendAll(r: ProblemHints, added: seq<NewHint>): ProblemHints
    decreases |added|
  {
    if added == [] then r
    else
      var last := added[|added| - 1];
      Appended(AppendAll(r, added[..|added| - 1]), last.text, last.at)
  }

  /** Successive `addHint` calls read back as the record with all their hints appended. */
  lemma {:induction false} AddAllReadsAppendAll(s: Stored, problem: string, added: seq<NewHint>)
    requires KeysMatch(s)
    ensures KeysMatch(AddAll(s, problem, added))
    ensures Lookup(AddAll(s, problem, added), problem) == AppendAll(Lookup(s, problem), added)
    decreases |added|
  {
    if added != [] {
      var init := added[..|added| - 1];
      AddAllReadsAppendAll(s, problem, init);
      AddOneAppends(AddAll(s, problem, init), problem, added[|added| - 1]);
    }
  }

  /**
   * Appending the hints of `added` keeps id, text and earlier hints, and adds
   * one hint per entry at levels one past the previous.
   */
  lemma {:induction false} AppendAllExtends(r: ProblemHints, added: seq<NewHint>)
    ensures var after := AppendAll(r, added);
      && after.problemId == r.problemId
      && after.problem == r.problem
      && after.currentLevel == r.currentLevel + |added|
      && Extends(after.hints, r.hints, r.currentLevel, added)
    decreases |added|
  {
    if added == [] {
      assert r.hints[..|r.hints|] == r.hints;
    } else {
      var init := added[..|added| - 1];
      var last := added[|added| - 1];
      assert added == init + [last];
      AppendAllExtends(r, init);
      ExtendsByOne(AppendAll(r, init).hints, r.hints, r.currentLevel, init, last);
    }
  }

  /**
   * Successive `addHint` calls append one hint each, at levels one past the
   * previous, keep the earlier hints, the id and the text, and never stop at 4.
   */
  lemma AddAllAppends(s: Stored, problem: string, added: seq<NewHint>)
    requires KeysMatch(s)
    ensures KeysMatch(AddAll(s, problem, added))
    ensures var before := Lookup(s, problem);
      var after := Lookup(AddAll(s, problem, added), problem);
      && after.problemId == before.problemId
      && after.problem == before.problem
      && after.currentLevel == before.currentLevel + |added|
      && Extends(after.hints, before.hints, before.currentLevel, added)
  {
    AddAllReadsAppendAll(s, problem, added);
    AppendAllExtends(Lookup(s, problem), added);
  }

  /** One `addHint` step on storage whose records sit under their own ids. */
  lemma AddOneAppends(s: Stored, problem: string, h: NewHint)
    requires KeysMatch(s)
    ensures var next := Appended(Lookup(s, problem), h.text, h.at);
      && KeysMatch(Save(s, next))
      && Lookup(Save(s, next), problem) == next
  {
    var next := Appended(Lookup(s, problem), h.text, h.at);
    LookupId(s, problem);
    WritesKeepKeysMatch(s, next, problem);
    LookupAfterSave(s, next, problem);
  }

  /**
   * From a problem with no hints, n calls of `addHint` give n hints at levels
   * 1..n in order, and `currentLevel` n.
   */
  lemma FreshProblemLevels(s: Stored, problem: string, added: seq<NewHint>)
    requires KeysMatch(s)
    requires Lookup(s, problem).hints == [] && Lookup(s, problem).currentLevel == 0
    ensures var after := Lookup(AddAll(s, problem, added), problem);
      && WellFormed(after)
      && |after.hints| == after.currentLevel == |added|
      && forall i :: 0 <= i < |added| ==> after.hints[i].hint == added[i].text
  {
    AddAllAppends(s, problem, added);
    var after := Lookup(AddAll(s, problem, added), problem);
    forall i | 0 <= i < |added|
      ensures after.hints[i] == HintHistory(i + 1, added[i].text, added[i].at)
    {
      assert after.hints[0 + i] == HintHistory(0 + i + 1, added[i].text, added[i].at);
    }
  }

  /** `addHint` keeps a well-formed record well-formed. */
  lemma AppendedWellFormed(r: ProblemHints, hint: string, now: int)
    requires WellFormed(r)
    ensures WellFormed(Appended(r, hint, now))
    ensures Appended(r, hint, now).hints[|r.hints|] == HintHistory(|r.hints| + 1, hint, now)
  {
  }

  /** A save followed by a get of a colliding problem returns the other problem's record. */
  lemma CollisionReturnsOtherRecord(s: Stored, hint: string, now: int)
    requires Lookup(s, "Aa") == Fresh("Aa")
    ensures Lookup(Save(s, Appended(Lookup(s, "Aa"), hint, now)), "BB").problem == "Aa"
  {
    CollidingProblems();
  }

  // ---------------------------------------------------------------------------
  // The hint history as text

  /** One line of the history: `Level {level}: {hint}`. */
  function HintLine(h: HintHistory): (line: string)
    ensures StartsWith(line, "Level ") && EndsWith(line, ": " + h.hint)
    ensures |line| > |"Level "| + |": " + h.hint|
    ensures h.level >= 0 ==>
      var digits := line[|"Level "|..|line| - |": " + h.hint|];
      (forall k :: 0 <= k < |digits| ==> IsDigit(digits[k])) && DecimalValue(digits) == h.level
    ensures '\n' !in h.hint ==> '\n' !in line
  {
    var digits := IntToString(h.level);
    var tail := ": " + h.hint;
    var line := "Level " + digits + tail;
    assert line == "Level " + (digits + tail);
    assert line[..|"Level "|] == "Level ";
    assert line[|line| - |tail|..] == tail;
    assert line[|"Level "|..|line| - |tail|] == digits;
    IntToStringOneLine(h.level);
    line
  }

  function HintLines(hs: seq<HintHistory>): (lines: seq<string>)
    ensures |lines| == |hs|
    ensures forall i :: 0 <= i < |hs| ==> lines[i] == HintLine(hs[i])
  {
    seq(|hs|, i requires 0 <= i < |hs| => HintLine(hs[i]))
  }

  /** `getHintHistoryString` */
  function HintHistoryString(r: ProblemHints): (h: string)
    ensures h == NoHintsText <==> r.hints == []
  {
    if |r.hints| == 0 then NoHintsText
    else
      assert HintLine(r.hints[0])[0] == 'L';
      Join(HintLines(r.hints), "\n")
  }

  /** A record without hints renders as the fixed sentence. */
  lemma EmptyHistoryString(r: ProblemHints)
    requires r.hints == []
    ensures HintHistoryString(r) == "No previous hints given."
  {
  }

  /** The line of a level-1 hint. */
  lemma LevelOneLine(text: string, at: int)
    ensures HintLine(HintHistory(1, text, at)) == "Level 1: " + text
  {
    assert NatToString(1) == "1";
    assert IntToString(1) == "1";
  }

  /** A record holding one level-1 hint renders as the single line `Level 1: {hint}`. */
  lemma OneHintHistoryString(id: string, problem: string, text: string, at: int)
    ensures HintHistoryString(ProblemHints(id, problem, [HintHistory(1, text, at)], 1)) == "Level 1: " + text
  {
    var h := HintHistory(1, text, at);
    LevelOneLine(text, at);
    assert HintLines([h]) == [HintLine(h)];
  }

  /** No line break appears in a level number. */
  lemma IntToStringOneLine(i: int)
    ensures '\n' !in IntToString(i)
  {
    var d := NatToString(if i < 0 then -i else i);
    assert forall k :: 0 <= k < |d| ==> d[k] != '\n';
  }

  /**
   * When no hint text holds a line break, splitting the history at line
   * breaks gives back one `Level {level}: {hint}` line per hint, in order.
   */
  lemma HistoryStringLines(r: ProblemHints)
    requires |r.hints| > 0
    requires forall i :: 0 <= i < |r.hints| ==> '\n' !in r.hints[i].hint
    ensures Split(HintHistoryString(r), '\n') == HintLines(r.hints)
  {
    var lines := HintLines(r.hints);
    forall k | 0 <= k < |lines| ensures '\n' !in lines[k] {
      IntToStringOneLine(r.hints[k].level);
      assert lines[k] == "Level " + IntToString(r.hints[k].level) + ": " + r.hints[k].hint;
    }
    SplitJoin(lines, '\n');
  }

  // ---------------------------------------------------------------------------
  // The store, as the browser holds it

  /** The browser's storage entry `tutorpy_hints`, read and rewritten by the hint functions. */
  class HintStore {
    var stored: Stored

    constructor (initial: Stored)
      ensures stored == initial
    {
      stored := initial;
    }

    /** `getProblemHints`: read only, never fails. */
    method GetProblemHints(problem: string) returns (r: ProblemHints)
      ensures r == Lookup(stored, problem)
    {
      var problemId := GetProblemId(problem);
      match stored
      case Parsed(all) =>
        r := if problemId in all then all[problemId] else ProblemHints(problemId, problem, [], 0);
      case _ =>
        r := ProblemHints(problemId, problem, [], 0);
    }

    /** `saveProblemHints` */
    method SaveProblemHints(hints: ProblemHints)
      modifies this
      ensures stored == Save(old(stored), hints)
    {
      var all := if stored.Parsed? then stored.records else map[];
      all := all[hints.problemId := hints];
      stored := Parsed(all);
    }

    /** `addHint`, with `Date.now()` passed in as `now`. */
    method AddHint(problem: string, hint: string, now: int) returns (updated: ProblemHints)
      modifies this
      ensures updated == Appended(Lookup(old(stored), problem), hint, now)
      ensures stored == Save(old(stored), updated)
    {
      var problemHints := GetProblemHints(problem);
      var newLevel := problemHints.currentLevel + 1;
      var newHint := HintHistory(newLevel, hint, now);
      updated := problemHints.(hints := problemHints.hints + [newHint], currentLevel := newLevel);
      SaveProblemHints(updated);
    }

    /** `resetHints`: nothing happens unless the entry parses. */
    method ResetHints(problem: string)
      modifies this
      ensures stored == Reset(old(stored), problem)
    {
      var problemId := GetProblemId(problem);
      match stored
      case Parsed(all) =>
        stored := Parsed(all - {problemId});
      case _ =>
    }
  }
}
