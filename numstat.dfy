/**
 * The per-file churn that `file_line_changes` accumulates from
 * `git log --numstat` output: lines of the form "added<TAB>removed<TAB>path".
 */
module Numstat {
  import opened Wrappers
  import opened Text
  import opened Dicts

  /** One file's totals: lines added, lines removed, number of stat lines naming it. */
  datatype Churn = Churn(added: nat, removed: nat, commits: nat)

  const NoChurn := Churn(0, 0, 0)

  /** The three fields of `line.split("\t")`, when the split gives exactly three. */
  function StatFields(line: string): (fields: Option<(string, string, string)>)
    ensures fields.Some? ==> '\t' !in fields.value.0 && '\t' !in fields.value.1 && '\t' !in fields.value.2
  {
    var parts := SplitOn(line, '\t');
    SplitOnSeparatorFree(line, '\t');
    if |parts| == 3 then Some((parts[0], parts[1], parts[2])) else None
  }

  /** A line is kept exactly when it holds two tabs. */
  lemma StatFieldsKept(line: string)
    ensures StatFields(line).Some? <==> multiset(line)['\t'] == 2
  {
    SplitOnCount(line, '\t');
  }

  /** A kept line is its three tab-free fields joined by tabs. */
  lemma StatFieldsShape(line: string)
    requires StatFields(line).Some?
    ensures var (a, r, p) := StatFields(line).value;
      && line == a + "\t" + r + "\t" + p
      && '\t' !in a && '\t' !in r && '\t' !in p
  {
    var parts := SplitOn(line, '\t');
    SplitOnSeparatorFree(line, '\t');
    JoinSplit(line, '\t');
    JoinCons(parts, '\t');
    JoinCons(parts[1..], '\t');
    assert parts[1..][1..] == [parts[2]];
  }

  /** Three tab-free fields joined by tabs make a kept line with those fields. */
  lemma StatFieldsOfJoin(a: string, r: string, p: string)
    requires '\t' !in a && '\t' !in r && '\t' !in p
    ensures StatFields(a + "\t" + r + "\t" + p) == Some((a, r, p))
  {
    var parts := [a, r, p];
    assert JoinOn(parts, '\t') == a + "\t" + r + "\t" + p by {
      assert JoinOn(parts[2..], '\t') == p;
      assert JoinOn(parts[1..], '\t') == r + "\t" + p;
    }
    SplitJoin(parts, '\t');
  }

  /** A count field's contribution: its value when it is all digits, 0 for a marker such as "-". */
  function FieldValue(field: string): (v: nat)
    ensures IsDigitString(field) ==> ParseDecimal(field) == Some(v)
    ensures !IsDigitString(field) ==> v == 0
  {
    if IsDigitString(field) then DigitsValue(field) else 0
  }

  /** The loop body of `file_line_changes` applied to one line. */
  function Record(d: Dict<Churn>, line: string): (d': Dict<Churn>)
    ensures StatFields(line).None? ==> d' == d
    ensures StatFields(line).Some? ==>
      var path := StatFields(line).value.2;
      && d'.keys == (if path in d.values then d.keys else d.keys + [path])
      && d'.values.Keys == d.values.Keys + {path}
      && (forall p :: p in d.values && p != path ==> d'.values[p] == d.values[p])
  {
    var fields := StatFields(line);
    if fields.None? then d
    else
      var (a, r, path) := fields.value;
      var c := d.GetOr(path, NoChurn);
      d.Put(path, Churn(c.added + FieldValue(a), c.removed + FieldValue(r), c.commits + 1))
  }

  /** The dictionary `file_line_changes` has built after reading `lines`. */
  function Churns(lines: seq<string>): (d: Dict<Churn>)
    ensures |d.keys| <= |lines|
  {
    if lines == [] then Empty() else Record(Churns(lines[..|lines| - 1]), lines[|lines| - 1])
  }

  lemma RecordValid(d: Dict<Churn>, line: string)
    requires d.Valid()
    ensures Record(d, line).Valid()
  {
    var fields := StatFields(line);
    if fields.Some? {
      var (a, r, path) := fields.value;
      var c := d.GetOr(path, NoChurn);
      PutKeepsValid(d, path, Churn(c.added + FieldValue(a), c.removed + FieldValue(r), c.commits + 1));
    }
  }

  lemma {:induction false} ChurnsValid(lines: seq<string>)
    ensures Churns(lines).Valid()
  {
    if lines != [] {
      ChurnsValid(lines[..|lines| - 1]);
      RecordValid(Churns(lines[..|lines| - 1]), lines[|lines| - 1]);
    }
  }

  /** The path fields of the lines that split into exactly three fields, in order. */
  function KeptPaths(lines: seq<string>): seq<string> {
    if lines == [] then []
    else
      var init := KeptPaths(lines[..|lines| - 1]);
      match StatFields(lines[|lines| - 1])
      case None => init
      case Some((_, _, path)) => init + [path]
  }

  /** The sum of the added-line fields over the kept lines naming `path`. */
  function AddedFor(lines: seq<string>, path: string): nat {
    if lines == [] then 0
    else
      var init := AddedFor(lines[..|lines| - 1], path);
      match StatFields(lines[|lines| - 1])
      case Some((a, _, p)) => if p == path then init + FieldValue(a) else init
      case None => init
  }

  /** The sum of the removed-line fields over the kept lines naming `path`. */
  function RemovedFor(lines: seq<string>, path: string): nat {
    if lines == [] then 0
    else
      var init := RemovedFor(lines[..|lines| - 1], path);
      match StatFields(lines[|lines| - 1])
      case Some((_, r, p)) => if p == path then init + FieldValue(r) else init
      case None => init
  }

  /**
   * A file has a record exactly when some kept line names it; its record
   * holds the sums of its numeric fields and the number of its kept lines,
   * numeric or not.
   */
  ghost predicate RecordAgrees(lines: seq<string>, path: string) {
    && (path in Churns(lines).values <==> path in KeptPaths(lines))
    && (path in Churns(lines).values ==>
          Churns(lines).values[path]
            == Churn(AddedFor(lines, path), RemovedFor(lines, path), multiset(KeptPaths(lines))[path]))
  }

  lemma {:induction false} ChurnRecord(lines: seq<string>, path: string)
    ensures RecordAgrees(lines, path)
  {
    if lines != [] {
      var init := lines[..|lines| - 1];
      var line := lines[|lines| - 1];
      ChurnRecord(init, path);
      if path !in KeptPaths(init) {
        NoKeptLineNoSums(init, path);
      }
      ChurnRecordStep(init, line, path);
      assert init + [line] == lines;
    }
  }

  /** One more line moves only the record of the path it names, by its own fields. */
  lemma {:induction false} ChurnRecordStep(init: seq<string>, line: string, path: string)
    requires RecordAgrees(init, path)
    requires path !in KeptPaths(init) ==> AddedFor(init, path) == 0 && RemovedFor(init, path) == 0
    ensures RecordAgrees(init + [line], path)
  {
    var lines := init + [line];
    assert lines[..|lines| - 1] == init && lines[|lines| - 1] == line;
    if StatFields(line).None? {
      RecordEffect(Churns(init), line, path);
      assert KeptPaths(lines) == KeptPaths(init);
    } else {
      KeptLineStep(init, line, path);
    }
  }

  lemma {:induction false} KeptLineStep(init: seq<string>, line: string, path: string)
    requires StatFields(line).Some?
    requires RecordAgrees(init, path)
    requires path !in KeptPaths(init) ==> AddedFor(init, path) == 0 && RemovedFor(init, path) == 0
    ensures RecordAgrees(init + [line], path)
  {
    ChurnsAppend(init, line);
    KeptPathsAppend(init, line);
    if StatFields(line).value.2 == path {
      SamePathStep(init, line, path);
    } else {
      OtherPathStep(init, line, path);
    }
  }

  lemma {:induction false} SamePathStep(init: seq<string>, line: string, path: string)
    requires StatFields(line).Some? && StatFields(line).value.2 == path
    requires RecordAgrees(init, path)
    requires path !in KeptPaths(init) ==> AddedFor(init, path) == 0 && RemovedFor(init, path) == 0
    requires Churns(init + [line]) == Record(Churns(init), line)
    requires KeptPaths(init + [line]) == KeptPaths(init) + [path]
    ensures RecordAgrees(init + [line], path)
  {
    var d := Churns(init);
    var c := d.GetOr(path, NoChurn);
    assert c == Churn(AddedFor(init, path), RemovedFor(init, path), multiset(KeptPaths(init))[path]) by {
      if path !in d.values {
        assert path !in KeptPaths(init);
      }
    }
    RecordEffect(d, line, path);
    SamePathSums(init, line, path);
  }

  lemma {:induction false} OtherPathStep(init: seq<string>, line: string, path: string)
    requires StatFields(line).Some? && StatFields(line).value.2 != path
    requires RecordAgrees(init, path)
    requires Churns(init + [line]) == Record(Churns(init), line)
    requires KeptPaths(init + [line]) == KeptPaths(init) + [StatFields(line).value.2]
    ensures RecordAgrees(init + [line], path)
  {
    RecordEffect(Churns(init), line, path);
    OtherPathSums(init, line, path);
  }

  lemma {:induction false} KeptPathsAppend(init: seq<string>, line: string)
    ensures KeptPaths(init + [line])
      == if StatFields(line).Some? then KeptPaths(init) + [StatFields(line).value.2] else KeptPaths(init)
  {
    var lines := init + [line];
    assert lines[..|lines| - 1] == init && lines[|lines| - 1] == line;
  }

  lemma {:induction false} SamePathSums(init: seq<string>, line: string, path: string)
    requires StatFields(line).Some? && StatFields(line).value.2 == path
    ensures var lines := init + [line];
      var (a, r, _) := StatFields(line).value;
      && AddedFor(lines, path) == AddedFor(init, path) + FieldValue(a)
      && RemovedFor(lines, path) == RemovedFor(init, path) + FieldValue(r)
      && multiset(KeptPaths(lines))[path] == multiset(KeptPaths(init))[path] + 1
  {
    var lines := init + [line];
    assert lines[..|lines| - 1] == init && lines[|lines| - 1] == line;
  }

  lemma {:induction false} OtherPathSums(init: seq<string>, line: string, path: string)
    requires StatFields(line).Some? && StatFields(line).value.2 != path
    ensures var lines := init + [line];
      && AddedFor(lines, path) == AddedFor(init, path)
      && RemovedFor(lines, path) == RemovedFor(init, path)
      && multiset(KeptPaths(lines))[path] == multiset(KeptPaths(init))[path]
  {
    var lines := init + [line];
    assert lines[..|lines| - 1] == init && lines[|lines| - 1] == line;
  }

  lemma RecordEffect(d: Dict<Churn>, line: string, path: string)
    ensures StatFields(line).None? ==> Record(d, line) == d
    ensures StatFields(line).Some? ==>
      var (a, r, p) := StatFields(line).value;
      var c := d.GetOr(p, NoChurn);
      if p == path then
        && path in Record(d, line).values
        && Record(d, line).values[path]
             == Churn(c.added + FieldValue(a), c.removed + FieldValue(r), c.commits + 1)
      else
        && (path in Record(d, line).values <==> path in d.values)
        && (path in d.values ==> Record(d, line).values[path] == d.values[path])
  {
  }

  lemma {:induction false} NoKeptLineNoSums(lines: seq<string>, path: string)
    requires path !in KeptPaths(lines)
    ensures AddedFor(lines, path) == 0 && RemovedFor(lines, path) == 0
  {
    if lines != [] {
      var init := lines[..|lines| - 1];
      match StatFields(lines[|lines| - 1])
      case None =>
        NoKeptLineNoSums(init, path);
      case Some((a, r, p)) =>
        assert KeptPaths(lines) == KeptPaths(init) + [p];
        NoKeptLineNoSums(init, path);
    }
  }

  /** Records appear in the order their paths are first named by a kept line. */
  lemma {:induction false} ChurnKeys(lines: seq<string>)
    ensures Churns(lines).keys == Distinct(KeptPaths(lines))
  {
    if lines != [] {
      var init := lines[..|lines| - 1];
      ChurnKeys(init);
      match StatFields(lines[|lines| - 1])
      case None =>
      case Some((a, r, p)) =>
        var kept := KeptPaths(init) + [p];
        assert KeptPaths(lines) == kept;
        assert kept[..|kept| - 1] == KeptPaths(init);
        ChurnRecord(init, p);
    }
  }

  /** A line that does not split into three fields changes nothing, wherever it stands. */
  lemma {:induction false} MalformedLineIgnored(before: seq<string>, line: string, after: seq<string>)
    requires StatFields(line).None?
    ensures Churns(before + [line] + after) == Churns(before + after)
  {
    if after == [] {
      var l1 := before + [line];
      assert l1[..|l1| - 1] == before;
      assert before + [line] + after == l1;
      assert before + after == before;
    } else {
      var init := after[..|after| - 1];
      var last := after[|after| - 1];
      MalformedLineIgnored(before, line, init);
      ChurnsAppend(before + [line] + init, last);
      ChurnsAppend(before + init, last);
      assert before + [line] + init + [last] == before + [line] + after;
      assert before + init + [last] == before + after;
    }
  }

  lemma {:induction false} ChurnsAppend(lines: seq<string>, line: string)
    ensures Churns(lines + [line]) == Record(Churns(lines), line)
  {
    assert (lines + [line])[..|lines|] == lines;
  }
}
