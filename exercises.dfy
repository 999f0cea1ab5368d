/** `DataManager` of services.py: the `entries` table of exercise texts,
    filled from question.txt and translation.txt, from which `/process` draws
    the next unused text of a type and level. The SQLite file is an object
    holding the rows in id order and the AUTOINCREMENT counter; a file's
    contents are its lines. */
module Exercises {
  import opened Wrappers
  import opened Text

  /** One row of `entries`: `level` is NULL (`None`) for texts before the
      first level line. */
  datatype Row = Row(id: nat, kind: string, level: Option<int>, text: string, used: bool)

  /** What one text line of a file becomes: its level and its text. */
  datatype Entry = Entry(level: Option<int>, text: string)

  /** `[line.strip() for line in f if line.strip()]`. */
  function Cleaned(lines: seq<string>): seq<string>
  {
    if lines == [] then []
    else (if Strip(lines[0]) != [] then [Strip(lines[0])] else []) + Cleaned(lines[1..])
  }

  /** Cleaning works line by line and keeps file order: a line stays, stripped,
      exactly when it is not blank. */
  lemma {:induction false} CleanedAppend(a: seq<string>, b: seq<string>)
    ensures Cleaned(a + b) == Cleaned(a) + Cleaned(b)
    decreases |a|
  {
    if a == [] {
      assert a + b == b;
    } else {
      assert (a + b)[0] == a[0] && (a + b)[1..] == a[1..] + b;
      var head := if Strip(a[0]) != [] then [Strip(a[0])] else [];
      assert Cleaned(a + b) == head + Cleaned(a[1..] + b);
      CleanedAppend(a[1..], b);
      assert head + (Cleaned(a[1..]) + Cleaned(b)) == (head + Cleaned(a[1..])) + Cleaned(b);
    }
  }

  /** A kept line is non-empty and has no whitespace at either end. */
  lemma {:induction false} CleanedLine(line: string)
    ensures Cleaned([line]) == if Strip(line) == [] then [] else [Strip(line)]
    ensures Strip(line) != [] ==> !IsSpace(Strip(line)[0]) && !IsSpace(Strip(line)[|Strip(line)| - 1])
    ensures Strip(line) == [] <==> AllSpace(line)
  {
    StripMeaning(line);
    assert [line][1..] == [];
  }

  /** The level in force after a run of cleaned lines, starting from `level`. */
  function LevelAfter(lines: seq<string>, level: Option<int>): Option<int>
  {
    if lines == [] then level
    else
      var last := lines[|lines| - 1];
      if IsDigits(last) then Some(ParseNat(last)) else LevelAfter(lines[..|lines| - 1], level)
  }

  /** The entries a run of cleaned lines produces: a digit line sets the
      level, any other line is an entry at the level then in force. */
  function Entries(lines: seq<string>, level: Option<int>): seq<Entry>
  {
    if lines == [] then []
    else
      var init := lines[..|lines| - 1];
      var last := lines[|lines| - 1];
      Entries(init, level) + (if IsDigits(last) then [] else [Entry(LevelAfter(init, level), last)])
  }

  /** Reading `a + b` is reading `a` and then `b` at the level `a` left. */
  lemma {:induction false} EntriesAppend(a: seq<string>, b: seq<string>, level: Option<int>)
    ensures Entries(a + b, level) == Entries(a, level) + Entries(b, LevelAfter(a, level))
    ensures LevelAfter(a + b, level) == LevelAfter(b, LevelAfter(a, level))
    decreases |b|
  {
    if b == [] {
      assert a + b == a;
    } else {
      var init := b[..|b| - 1];
      assert (a + b)[..|a + b| - 1] == a + init;
      assert (a + b)[|a + b| - 1] == b[|b| - 1];
      EntriesAppend(a, init, level);
    }
  }

  /** The level after lines without a digit line is the starting level. */
  lemma {:induction false} LevelWithoutDigits(lines: seq<string>, level: Option<int>)
    requires forall k :: 0 <= k < |lines| ==> !IsDigits(lines[k])
    ensures LevelAfter(lines, level) == level
    decreases |lines|
  {
    if lines != [] {
      LevelWithoutDigits(lines[..|lines| - 1], level);
    }
  }

  /** The level after lines is the value of their last digit line. */
  lemma LevelOfLastDigitLine(before: seq<string>, d: string, after: seq<string>, level: Option<int>)
    requires IsDigits(d)
    requires forall k :: 0 <= k < |after| ==> !IsDigits(after[k])
    ensures LevelAfter(before + [d] + after, level) == Some(ParseNat(d))
  {
    EntriesAppend(before + [d], after, level);
    LevelWithoutDigits(after, LevelAfter(before + [d], level));
    assert (before + [d])[..|before + [d]| - 1] == before;
  }

  /** Each text line becomes exactly one entry, at the position given by the
      entries before it, tagged with the level those earlier lines left. */
  lemma EntryOfTextLine(before: seq<string>, line: string, after: seq<string>)
    requires !IsDigits(line)
    ensures var es := Entries(before + [line] + after, None);
      |Entries(before, None)| < |es| && es[|Entries(before, None)|] == Entry(LevelAfter(before, None), line)
  {
    EntriesAppend(before + [line], after, None);
    assert (before + [line])[..|before + [line]| - 1] == before;
  }

  /** Entry texts are the non-digit lines, in order; digit lines produce nothing. */
  function TextLines(lines: seq<string>): seq<string>
  {
    if lines == [] then []
    else TextLines(lines[..|lines| - 1])
         + (if IsDigits(lines[|lines| - 1]) then [] else [lines[|lines| - 1]])
  }

  function TextsOf(es: seq<Entry>): (r: seq<string>)
    ensures |r| == |es| && forall k :: 0 <= k < |es| ==> r[k] == es[k].text
  {
    if es == [] then [] else TextsOf(es[..|es| - 1]) + [es[|es| - 1].text]
  }

  lemma {:induction false} TextsOfAppend(a: seq<Entry>, b: seq<Entry>)
    ensures TextsOf(a + b) == TextsOf(a) + TextsOf(b)
  {
  }

  lemma {:induction false} EntryTexts(lines: seq<string>, level: Option<int>)
    ensures TextsOf(Entries(lines, level)) == TextLines(lines)
    decreases |lines|
  {
    if lines != [] {
      var init := lines[..|lines| - 1];
      var last := lines[|lines| - 1];
      EntryTexts(init, level);
      TextsOfAppend(Entries(init, level), if IsDigits(last) then [] else [Entry(LevelAfter(init, level), last)]);
    }
  }

  /** Before the first digit line every entry has no level. */
  lemma {:induction false} NoLevelBeforeDigits(lines: seq<string>)
    requires forall k :: 0 <= k < |lines| ==> !IsDigits(lines[k])
    ensures forall e :: e in Entries(lines, None) ==> e.level == None
    decreases |lines|
  {
    if lines != [] {
      NoLevelBeforeDigits(lines[..|lines| - 1]);
      LevelWithoutDigits(lines[..|lines| - 1], None);
    }
  }

  /** The column constraint `CHECK(level BETWEEN 1 AND 10)`; NULL passes it. */
  predicate LevelAllowed(level: Option<int>)
  {
    level.None? || 1 <= level.value <= 10
  }

  predicate AllAllowed(es: seq<Entry>)
  {
    forall k :: 0 <= k < |es| ==> LevelAllowed(es[k].level)
  }

  /** `DELETE FROM entries WHERE type = ?`. */
  function Without(rows: seq<Row>, kind: string): (r: seq<Row>)
    ensures forall x :: x in r ==> x in rows && x.kind != kind
  {
    if rows == [] then []
    else (if rows[0].kind == kind then [] else [rows[0]]) + Without(rows[1..], kind)
  }

  /** The rows the inserts of one load add, ids counted from `start`. */
  function NewRows(start: nat, kind: string, es: seq<Entry>): (r: seq<Row>)
    ensures |r| == |es|
    ensures forall k :: 0 <= k < |es| ==> r[k] == Row(start + k, kind, es[k].level, es[k].text, false)
  {
    seq(|es|, k requires 0 <= k < |es| => Row(start + k, kind, es[k].level, es[k].text, false))
  }

  /** The rows of one type read back in id order as entries. */
  function EntriesOfKind(rows: seq<Row>, kind: string): seq<Entry>
  {
    if rows == [] then []
    else (if rows[0].kind == kind then [Entry(rows[0].level, rows[0].text)] else [])
         + EntriesOfKind(rows[1..], kind)
  }

  lemma {:induction false} EntriesOfKindAppend(a: seq<Row>, b: seq<Row>, kind: string)
    ensures EntriesOfKind(a + b, kind) == EntriesOfKind(a, kind) + EntriesOfKind(b, kind)
    decreases |a|
  {
    if a == [] {
      assert a + b == b;
    } else {
      assert (a + b)[0] == a[0] && (a + b)[1..] == a[1..] + b;
      var head := if a[0].kind == kind then [Entry(a[0].level, a[0].text)] else [];
      assert EntriesOfKind(a + b, kind) == head + EntriesOfKind(a[1..] + b, kind);
      EntriesOfKindAppend(a[1..], b, kind);
      assert head + (EntriesOfKind(a[1..], kind) + EntriesOfKind(b, kind))
          == (head + EntriesOfKind(a[1..], kind)) + EntriesOfKind(b, kind);
    }
  }

  /** Deleting a type empties it and leaves every other type as it was. */
  lemma {:induction false} EntriesOfKindWithout(rows: seq<Row>, kind: string, other: string)
    ensures EntriesOfKind(Without(rows, kind), kind) == []
    ensures other != kind ==> EntriesOfKind(Without(rows, kind), other) == EntriesOfKind(rows, other)
    decreases |rows|
  {
    if rows != [] {
      EntriesOfKindWithout(rows[1..], kind, other);
      var head := if rows[0].kind == kind then [] else [rows[0]];
      EntriesOfKindAppend(head, Without(rows[1..], kind), kind);
      EntriesOfKindAppend(head, Without(rows[1..], kind), other);
    }
  }

  /** The inserted rows read back as the entries inserted, under their own type only. */
  lemma {:induction false} EntriesOfKindNew(start: nat, kind: string, es: seq<Entry>, other: string)
    ensures EntriesOfKind(NewRows(start, kind, es), kind) == es
    ensures other != kind ==> EntriesOfKind(NewRows(start, kind, es), other) == []
    decreases |es|
  {
    if es != [] {
      var r := NewRows(start, kind, es);
      assert r[1..] == NewRows(start + 1, kind, es[1..]);
      EntriesOfKindNew(start + 1, kind, es[1..], other);
      assert es == [es[0]] + es[1..];
    }
  }

  /** `UPDATE entries SET used = 0`. */
  function ResetAll(rows: seq<Row>): (r: seq<Row>)
    ensures |r| == |rows| && forall k :: 0 <= k < |rows| ==> r[k] == rows[k].(used := false)
  {
    seq(|rows|, k requires 0 <= k < |rows| => rows[k].(used := false))
  }

  /** Resetting the flags changes no row's type, level or text. */
  lemma {:induction false} EntriesOfKindReset(rows: seq<Row>, kind: string)
    ensures EntriesOfKind(ResetAll(rows), kind) == EntriesOfKind(rows, kind)
    decreases |rows|
  {
    if rows != [] {
      assert ResetAll(rows)[1..] == ResetAll(rows[1..]);
      EntriesOfKindReset(rows[1..], kind);
    }
  }

  /** The `WHERE type = ? AND level = ? AND used = 0` of `get_next_entry`. */
  predicate Available(row: Row, kind: string, level: int)
  {
    row.kind == kind && row.level == Some(level) && !row.used
  }

  /** Every row of the type and level is used: there is nothing to hand out. */
  predicate NoneAvailable(rows: seq<Row>, kind: string, level: int)
  {
    forall k :: 0 <= k < |rows| ==> !Available(rows[k], kind, level)
  }

  /** `after` is `before` with row `i` handed out: an available row whose id
      is the smallest among the available ones, and only it is marked used. */
  predicate HandedOut(before: seq<Row>, after: seq<Row>, i: int, kind: string, level: int)
  {
    && 0 <= i < |before|
    && Available(before[i], kind, level)
    && (forall k :: 0 <= k < |before| && Available(before[k], kind, level) ==> before[i].id <= before[k].id)
    && after == before[i := before[i].(used := true)]
  }

  /** Ids strictly increase along the rows, so row order is id order. */
  predicate Ascending(rows: seq<Row>)
  {
    forall i, j :: 0 <= i < j < |rows| ==> rows[i].id < rows[j].id
  }

  /** The position of the first available row, `None` if there is none. */
  function FirstAvailable(rows: seq<Row>, kind: string, level: int): (r: Option<nat>)
    ensures r.None? <==> forall k :: 0 <= k < |rows| ==> !Available(rows[k], kind, level)
    ensures r.Some? ==> r.value < |rows| && Available(rows[r.value], kind, level)
                        && forall k :: 0 <= k < r.value ==> !Available(rows[k], kind, level)
  {
    if rows == [] then None
    else if Available(rows[0], kind, level) then Some(0)
    else
      var rest := FirstAvailable(rows[1..], kind, level);
      if rest.None? then None else Some(rest.value + 1)
  }

  /** With ids ascending, the first available row has the smallest id of all
      available rows: it is the row `ORDER BY id LIMIT 1` selects. */
  lemma FirstHasSmallestId(rows: seq<Row>, kind: string, level: int)
    requires Ascending(rows)
    ensures var r := FirstAvailable(rows, kind, level);
      r.Some? ==> forall k :: 0 <= k < |rows| && Available(rows[k], kind, level) ==> rows[r.value].id <= rows[k].id
  {
  }

  /** Once handed out, a row is not handed out again before a reset: the next
      request of the same type and level gets a row with a larger id, or none. */
  lemma NextIsLater(rows: seq<Row>, kind: string, level: int)
    requires Ascending(rows)
    requires FirstAvailable(rows, kind, level).Some?
    ensures var i := FirstAvailable(rows, kind, level).value;
      var marked := rows[i := rows[i].(used := true)];
      var j := FirstAvailable(marked, kind, level);
      j.None? || (j.value > i && marked[j.value].id > rows[i].id)
  {
    var i := FirstAvailable(rows, kind, level).value;
    var marked := rows[i := rows[i].(used := true)];
    var j := FirstAvailable(marked, kind, level);
    forall k | 0 <= k <= i ensures !Available(marked[k], kind, level) {
      if k < i {
        assert marked[k] == rows[k];
      }
    }
  }

  class EntryTable {
    var rows: seq<Row>
    /** The next id AUTOINCREMENT hands out; ids are never reused. */
    var nextId: nat

    ghost predicate Valid()
      reads this
    {
      Ascending(rows) && forall k :: 0 <= k < |rows| ==> rows[k].id < nextId
    }

    /** `CREATE TABLE IF NOT EXISTS` on a new database file. */
    constructor ()
      ensures Valid() && rows == [] && nextId == 1
    {
      rows := [];
      nextId := 1;
    }

    /** `_load_file_into_db`: the rows of the type are deleted and each entry
        of the file is inserted with the next id, unused. An entry whose level
        the CHECK refuses raises, and the uncommitted transaction is rolled
        back, so then the table is as before. */
    method LoadFile(lines: seq<string>, kind: string) returns (ok: bool)
      requires Valid()
      modifies this
      ensures Valid()
      ensures ok <==> AllAllowed(Entries(Cleaned(lines), None))
      ensures ok ==>
        var es := Entries(Cleaned(lines), None);
        && rows == Without(old(rows), kind) + NewRows(old(nextId), kind, es)
        && nextId == old(nextId) + |es|
      ensures !ok ==> rows == old(rows) && nextId == old(nextId)
    {
      var cleaned := Cleaned(lines);
      var allowed, added := InsertEntries(cleaned, kind, nextId);
      if !allowed {
        return false;
      }
      var kept := Without(rows, kind);
      WithoutAscending(rows, kind);
      WithoutBelow(rows, kind, nextId);
      Layout(kept, nextId, kind, Entries(cleaned, None));
      rows, nextId := kept + added, nextId + |added|;
      return true;
    }

    /** The `for line in lines` loop of `_load_file_into_db`: a digit line
        sets the level, any other line is inserted at the level in force with
        the next id. The first insert whose level the CHECK refuses makes the
        load fail. */
    static method InsertEntries(cleaned: seq<string>, kind: string, start: nat)
      returns (allowed: bool, added: seq<Row>)
      ensures allowed <==> AllAllowed(Entries(cleaned, None))
      ensures allowed ==> added == NewRows(start, kind, Entries(cleaned, None))
    {
      var level: Option<int> := None;
      added := [];
      var i := 0;
      while i < |cleaned|
        invariant 0 <= i <= |cleaned|
        invariant level == LevelAfter(cleaned[..i], None)
        invariant AllAllowed(Entries(cleaned[..i], None))
        invariant added == NewRows(start, kind, Entries(cleaned[..i], None))
      {
        var line := cleaned[i];
        StepLine(cleaned, i);
        if IsDigits(line) {
          level := Some(ParseNat(line));
        } else {
          if !LevelAllowed(level) {
            RefusedAt(cleaned, i);
            return false, added;
          }
          NewRowsSnoc(start, kind, Entries(cleaned[..i], None), Entry(level, line));
          added := added + [Row(start + |added|, kind, level, line, false)];
        }
        i := i + 1;
      }
      assert cleaned[..i] == cleaned;
      return true, added;
    }

    /** `get_next_entry`: the available row with the smallest id is marked
        used, and only it, and its text is returned; `None` when every row of
        that type and level is used. */
    method GetNextEntry(kind: string, level: int) returns (text: Option<string>)
      requires Valid()
      modifies this
      ensures Valid() && nextId == old(nextId)
      ensures text.None? <==> NoneAvailable(old(rows), kind, level)
      ensures text.None? ==> rows == old(rows)
      ensures text.Some? ==> exists i :: HandedOut(old(rows), rows, i, kind, level) && text.value == old(rows)[i].text
    {
      var found := FirstAvailable(rows, kind, level);
      FirstHasSmallestId(rows, kind, level);
      if found.Some? {
        var i := found.value;
        text := Some(rows[i].text);
        rows := rows[i := rows[i].(used := true)];
        assert forall k :: 0 <= k < |rows| ==> rows[k].id == old(rows)[k].id;
      } else {
        text := None;
      }
    }

    /** `_reset_used`: every row becomes unused; nothing else changes. */
    method ResetUsed()
      requires Valid()
      modifies this
      ensures Valid() && rows == ResetAll(old(rows)) && nextId == old(nextId)
    {
      rows := ResetAll(rows);
    }
  }

  /** Reading one more cleaned line. */
  lemma StepLine(cleaned: seq<string>, i: nat)
    requires i < |cleaned|
    ensures LevelAfter(cleaned[..i + 1], None)
      == if IsDigits(cleaned[i]) then Some(ParseNat(cleaned[i])) else LevelAfter(cleaned[..i], None)
    ensures Entries(cleaned[..i + 1], None)
      == Entries(cleaned[..i], None)
         + if IsDigits(cleaned[i]) then [] else [Entry(LevelAfter(cleaned[..i], None), cleaned[i])]
  {
    assert cleaned[..i + 1][..i] == cleaned[..i];
    assert cleaned[..i + 1][i] == cleaned[i];
  }

  lemma NewRowsSnoc(start: nat, kind: string, es: seq<Entry>, e: Entry)
    ensures NewRows(start, kind, es + [e])
         == NewRows(start, kind, es) + [Row(start + |es|, kind, e.level, e.text, false)]
  {
  }

  /** Rows appended with ids from `start` on, after rows whose ids are below
      `start`, keep ids ascending and below the advanced counter. */
  lemma Layout(base: seq<Row>, start: nat, kind: string, es: seq<Entry>)
    requires Ascending(base) && forall k :: 0 <= k < |base| ==> base[k].id < start
    ensures var all := base + NewRows(start, kind, es);
      Ascending(all) && forall k :: 0 <= k < |all| ==> all[k].id < start + |es|
  {
    var all := base + NewRows(start, kind, es);
    forall i, j | 0 <= i < j < |all| ensures all[i].id < all[j].id {
      if j < |base| {
        assert all[i] == base[i] && all[j] == base[j];
      } else if i >= |base| {
        assert all[i].id == start + (i - |base|);
        assert all[j].id == start + (j - |base|);
      } else {
        assert all[i] == base[i];
        assert all[j].id == start + (j - |base|);
      }
    }
    forall k | 0 <= k < |all| ensures all[k].id < start + |es| {
      if k < |base| {
        assert all[k] == base[k];
      } else {
        assert all[k].id == start + (k - |base|);
      }
    }
  }

  /** A text line read at a refused level makes the whole file refused. */
  lemma RefusedAt(cleaned: seq<string>, i: nat)
    requires i < |cleaned| && !IsDigits(cleaned[i]) && !LevelAllowed(LevelAfter(cleaned[..i], None))
    ensures !AllAllowed(Entries(cleaned, None))
  {
    var before, upTo := cleaned[..i], cleaned[..i + 1];
    StepLine(cleaned, i);
    var read := Entries(upTo, None);
    assert read == Entries(before, None) + [Entry(LevelAfter(before, None), cleaned[i])];
    assert read[|Entries(before, None)|].level == LevelAfter(before, None);
    assert !AllAllowed(read);
    Unallowed(upTo, cleaned[i + 1..]);
    Rejoin(cleaned, i + 1);
  }

  lemma Rejoin(lines: seq<string>, n: nat)
    requires n <= |lines|
    ensures lines[..n] + lines[n..] == lines
  {
  }

  /** One refused entry makes every longer file refused too. */
  lemma Unallowed(a: seq<string>, b: seq<string>)
    requires !AllAllowed(Entries(a, None))
    ensures !AllAllowed(Entries(a + b, None))
  {
    EntriesAppend(a, b, None);
    var k :| 0 <= k < |Entries(a, None)| && !LevelAllowed(Entries(a, None)[k].level);
    assert Entries(a + b, None)[k] == Entries(a, None)[k];
  }

  lemma WithoutBelow(rows: seq<Row>, kind: string, bound: nat)
    requires forall k :: 0 <= k < |rows| ==> rows[k].id < bound
    ensures forall k :: 0 <= k < |Without(rows, kind)| ==> Without(rows, kind)[k].id < bound
  {
    var w := Without(rows, kind);
    forall k | 0 <= k < |w| ensures w[k].id < bound {
      assert w[k] in w;
      var m :| 0 <= m < |rows| && rows[m] == w[k];
    }
  }

  lemma {:induction false} WithoutAscending(rows: seq<Row>, kind: string)
    requires Ascending(rows)
    ensures Ascending(Without(rows, kind))
    decreases |rows|
  {
    if rows != [] {
      WithoutAscending(rows[1..], kind);
      var w := Without(rows[1..], kind);
      forall x | x in w ensures rows[0].id < x.id {
        var k :| 0 <= k < |rows[1..]| && rows[1..][k] == x;
        assert rows[k + 1] == x;
      }
    }
  }

  /** Every data file that is present passes the level CHECK. */
  predicate FilesAllowed(questionFile: Option<seq<string>>, translationFile: Option<seq<string>>)
  {
    && (questionFile.Some? ==> AllAllowed(Entries(Cleaned(questionFile.value), None)))
    && (translationFile.Some? ==> AllAllowed(Entries(Cleaned(translationFile.value), None)))
  }

  /** What type `kind` reads back as after the files are loaded over
      `before`: a loaded type is its file's entries, any other type keeps
      its rows. */
  function LoadedEntries(before: seq<Row>, kind: string, questionFile: Option<seq<string>>,
                         translationFile: Option<seq<string>>): seq<Entry>
  {
    if kind == "question" && questionFile.Some? then Entries(Cleaned(questionFile.value), None)
    else if kind == "translation" && translationFile.Some? then Entries(Cleaned(translationFile.value), None)
    else EntriesOfKind(before, kind)
  }

  /** The table `after` a successful `DataManager(...)` over `before`: no row
      is used, and every type reads back as `LoadedEntries`. */
  ghost predicate Loaded(before: seq<Row>, after: seq<Row>, questionFile: Option<seq<string>>,
                   translationFile: Option<seq<string>>)
  {
    && (forall k :: 0 <= k < |after| ==> !after[k].used)
    && (forall kind :: EntriesOfKind(after, kind) == LoadedEntries(before, kind, questionFile, translationFile))
  }

  /** The table `after` a load over `before` that raised: a refused question
      file was rolled back and left the table as it was; otherwise the
      question file, if present, stayed committed and the translation file
      was the one refused, so every type other than "question" reads as
      before. */
  ghost predicate PartlyLoaded(before: seq<Row>, after: seq<Row>, questionFile: Option<seq<string>>)
  {
    if questionFile.Some? && !AllAllowed(Entries(Cleaned(questionFile.value), None)) then after == before
    else forall kind :: EntriesOfKind(after, kind) == LoadedEntries(before, kind, questionFile, None)
  }

  /** The table an exercise is drawn from: with a data manager already
      there, the table as it stood; otherwise the manager exists exactly when
      the files pass the CHECK, and the table is the one they loaded. */
  ghost predicate DrawnFrom(hadManager: bool, hasManager: bool, before: seq<Row>, drawn: seq<Row>,
                      questionFile: Option<seq<string>>, translationFile: Option<seq<string>>)
  {
    && (hadManager ==> hasManager && drawn == before)
    && (!hadManager ==> (hasManager <==> FilesAllowed(questionFile, translationFile)))
    && (!hadManager && hasManager ==> Loaded(before, drawn, questionFile, translationFile))
  }

  /** `get_next_entry` on `drawn`: nothing changes when no row is available,
      otherwise row `picked` is the one handed out. */
  predicate Drawn(drawn: seq<Row>, after: seq<Row>, picked: int, kind: string, level: int)
  {
    if NoneAvailable(drawn, kind, level) then after == drawn else HandedOut(drawn, after, picked, kind, level)
  }

  /** On a table where no row is used, nothing of a type and level can be
      handed out exactly when no entry of that type has that level. */
  lemma {:induction false} NoneAvailableUnused(rows: seq<Row>, kind: string, level: int)
    requires forall k :: 0 <= k < |rows| ==> !rows[k].used
    ensures NoneAvailable(rows, kind, level) <==> forall e :: e in EntriesOfKind(rows, kind) ==> e.level != Some(level)
    decreases |rows|
  {
    if rows != [] {
      var tail := rows[1..];
      assert forall k :: 0 <= k < |tail| ==> tail[k] == rows[k + 1];
      NoneAvailableUnused(tail, kind, level);
      var head: seq<Entry> := if rows[0].kind == kind then [Entry(rows[0].level, rows[0].text)] else [];
      assert EntriesOfKind(rows, kind) == head + EntriesOfKind(tail, kind);
      if !Available(rows[0], kind, level) && NoneAvailable(tail, kind, level) {
        forall k | 0 <= k < |rows|
          ensures !Available(rows[k], kind, level)
        {
          if k > 0 {
            assert rows[k] == tail[k - 1];
          }
        }
      }
    }
  }

  /** One round of `_update_db_from_files`: a present file is loaded as
      type `kind`; a missing one changes nothing. */
  method LoadIfPresent(db: EntryTable, file: Option<seq<string>>, kind: string) returns (ok: bool)
    requires db.Valid()
    modifies db
    ensures db.Valid()
    ensures ok <==> file.None? || AllAllowed(Entries(Cleaned(file.value), None))
    ensures ok ==> forall other :: EntriesOfKind(db.rows, other)
                                   == if other == kind && file.Some? then Entries(Cleaned(file.value), None)
                                      else EntriesOfKind(old(db.rows), other)
    ensures !ok ==> db.rows == old(db.rows)
  {
    ok := true;
    if file.Some? {
      ghost var before := db.rows;
      ghost var start := db.nextId;
      ok := db.LoadFile(file.value, kind);
      if ok {
        LoadedAllKinds(before, start, kind, Entries(Cleaned(file.value), None));
      }
    }
  }

  /** `_update_db_from_files`: each data file present, question.txt first,
      is loaded. A refused level raises: the loads before it stay committed
      and the rest is not reached. */
  method UpdateFromFiles(db: EntryTable, questionFile: Option<seq<string>>,
                         translationFile: Option<seq<string>>) returns (ok: bool)
    requires db.Valid()
    modifies db
    ensures db.Valid()
    ensures ok <==> FilesAllowed(questionFile, translationFile)
    ensures ok ==> forall kind :: EntriesOfKind(db.rows, kind) == LoadedEntries(old(db.rows), kind, questionFile, translationFile)
    ensures !ok ==> PartlyLoaded(old(db.rows), db.rows, questionFile)
  {
    ok := LoadIfPresent(db, questionFile, "question");
    if ok {
      ok := LoadIfPresent(db, translationFile, "translation");
    }
  }

  /** `DataManager(...)`: the data files are loaded and then every row is
      marked unused. A refused level raises out of the constructor before
      the reset, and no data manager exists. */
  method OpenDataManager(db: EntryTable, questionFile: Option<seq<string>>,
                         translationFile: Option<seq<string>>) returns (ok: bool)
    requires db.Valid()
    modifies db
    ensures db.Valid()
    ensures ok <==> FilesAllowed(questionFile, translationFile)
    ensures ok ==> Loaded(old(db.rows), db.rows, questionFile, translationFile)
    ensures !ok ==> PartlyLoaded(old(db.rows), db.rows, questionFile)
  {
    ok := UpdateFromFiles(db, questionFile, translationFile);
    if !ok {
      return;
    }
    ghost var loaded := db.rows;
    db.ResetUsed();
    ResetAllKinds(loaded);
  }

  /** After a load the loaded type reads back as the file's entries and
      every other type is as before. */
  lemma LoadedKinds(rows: seq<Row>, start: nat, kind: string, es: seq<Entry>, other: string)
    requires other != kind
    ensures EntriesOfKind(Without(rows, kind) + NewRows(start, kind, es), kind) == es
    ensures EntriesOfKind(Without(rows, kind) + NewRows(start, kind, es), other) == EntriesOfKind(rows, other)
  {
    EntriesOfKindAppend(Without(rows, kind), NewRows(start, kind, es), kind);
    EntriesOfKindAppend(Without(rows, kind), NewRows(start, kind, es), other);
    EntriesOfKindWithout(rows, kind, other);
    EntriesOfKindNew(start, kind, es, other);
  }

  /** `LoadedKinds` for every other type at once. */
  lemma LoadedAllKinds(rows: seq<Row>, start: nat, kind: string, es: seq<Entry>)
    ensures EntriesOfKind(Without(rows, kind) + NewRows(start, kind, es), kind) == es
    ensures forall other :: other != kind ==>
      EntriesOfKind(Without(rows, kind) + NewRows(start, kind, es), other) == EntriesOfKind(rows, other)
  {
    forall other | other != kind
      ensures EntriesOfKind(Without(rows, kind) + NewRows(start, kind, es), other) == EntriesOfKind(rows, other)
    {
      LoadedKinds(rows, start, kind, es, other);
    }
    EntriesOfKindAppend(Without(rows, kind), NewRows(start, kind, es), kind);
    EntriesOfKindWithout(rows, kind, kind);
    EntriesOfKindNew(start, kind, es, kind);
  }

  /** `EntriesOfKindReset` for every type at once. */
  lemma ResetAllKinds(rows: seq<Row>)
    ensures forall kind :: EntriesOfKind(ResetAll(rows), kind) == EntriesOfKind(rows, kind)
  {
    forall kind
      ensures EntriesOfKind(ResetAll(rows), kind) == EntriesOfKind(rows, kind)
    {
      EntriesOfKindReset(rows, kind);
    }
  }
}
