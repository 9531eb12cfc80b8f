/**
 * The repository-activity analyser: each producer turns the trimmed output
 * of one git command into one statistic, and `AnalyzeRepo` validates the
 * repository first and then assembles the six statistics into a report.
 */
module Analyzer {
  import opened Wrappers
  import opened Text
  import opened Paths
  import opened Dicts
  import opened Ranking
  import opened Numstat

  /** The git commands the analyser runs, in the order it runs them. */
  datatype Query =
    | InsideWorkTree   // git rev-parse --is-inside-work-tree
    | CommitCount      // git rev-list --all --count
    | CommitHashLog    // git log --pretty=format:%H
    | CommitDateLog    // git log --date=short --pretty=format:%ad
    | NameOnlyLog      // git log --name-only --pretty=format:
    | TrackedFiles     // git ls-files
    | NumstatLog       // git log --numstat

  const AllQueries: seq<Query> :=
    [InsideWorkTree, CommitCount, CommitHashLog, CommitDateLog, NameOnlyLog, TrackedFiles, NumstatLog]

  /**
   * `run`: what the command prints on standard output, given by `stdout`,
   * with surrounding whitespace stripped.
   */
  function Run(stdout: Query -> string, q: Query): (out: string)
    ensures Unpadded(out)
    ensures Unpadded(stdout(q)) ==> out == stdout(q)
  {
    StripEnds(stdout(q));
    if Unpadded(stdout(q)) then StripUnpadded(stdout(q)); Strip(stdout(q)) else Strip(stdout(q))
  }

  /** Runs `q` as the next command of a session: its output, and the session's commands so far. */
  method Issue(stdout: Query -> string, q: Query, trace: seq<Query>) returns (out: string, trace': seq<Query>)
    ensures out == Run(stdout, q)
    ensures trace' == trace + [q]
  {
    out := Run(stdout, q);
    trace' := trace + [q];
  }

  datatype AnalysisError =
    | NotARepository      // the validity check did not print exactly "true"
    | InvalidCommitCount  // `int` rejected the commit count

  /** The six statistics, in the order the report lists them. */
  datatype Report = Report(
    totalCommits: nat,
    commitHashes: seq<string>,
    commitsByDate: Dict<nat>,
    topChangedFiles: seq<(string, nat)>,
    extensionStats: Dict<nat>,
    fileLineChanges: seq<(string, Churn)>)

  /** `is_git_repo`: the trimmed output must be the literal "true". */
  predicate IsGitRepo(out: string) {
    out == "true"
  }

  /** Only the exact literal passes: no other spelling, no padding, no empty output. */
  lemma OnlyTrueValidates(out: string)
    requires out != "true"
    ensures !IsGitRepo(out)
    ensures !IsGitRepo("") && !IsGitRepo("false") && !IsGitRepo("True") && !IsGitRepo("TRUE")
    ensures !IsGitRepo("true\n") && !IsGitRepo(" true") && !IsGitRepo("fatal: not a git repository")
  {
  }

  /** `total_commits`: `int` of the trimmed count. */
  function TotalCommits(out: string): (count: Option<nat>)
    ensures count.Some? <==> IsDigitString(out)
    ensures forall n: nat :: out == Decimal(n) ==> count == Some(n)
  {
    forall n: nat | out == Decimal(n) ensures ParseDecimal(out) == Some(n) {
      ParseDecimalOfDecimal(n);
    }
    ParseDecimal(out)
  }

  /** `commit_hashes`: the lines of the hash log. */
  function CommitHashes(out: string): (hashes: seq<string>)
    ensures forall i :: 0 <= i < |hashes| ==> '\n' !in hashes[i]
    ensures out == [] ==> hashes == []
    ensures out != [] && out[|out| - 1] != '\n' ==> |hashes| == multiset(out)['\n'] + 1
    ensures out == [] || out[|out| - 1] != '\n' ==> JoinOn(hashes, '\n') == out
  {
    SplitLinesCount(out);
    if out == [] || out[|out| - 1] != '\n' then SplitLinesJoin(out); SplitLines(out)
    else SplitLines(out)
  }

  /**
   * `commits_by_date`: how many commits fall on each date, keyed by the
   * date lines in the order they first appear.
   */
  method CommitsByDate(out: string) returns (histogram: Dict<nat>)
    ensures histogram == Tally(SplitLines(out))
  {
    histogram := Count(SplitLines(out));
  }

  /** `[f.strip() for f in lines if f.strip()]` */
  function ChangedPaths(lines: seq<string>): (paths: seq<string>)
    ensures |paths| <= |lines|
    ensures forall i :: 0 <= i < |paths| ==> paths[i] != []
  {
    NonEmpty(StripAll(lines))
  }

  /** Every line with its surrounding whitespace removed. */
  function StripAll(lines: seq<string>): (stripped: seq<string>)
    ensures |stripped| == |lines|
    ensures forall i :: 0 <= i < |lines| ==> stripped[i] == Strip(lines[i])
  {
    seq(|lines|, i requires 0 <= i < |lines| => Strip(lines[i]))
  }

  /** The non-empty strings of `xs`, in order. */
  function NonEmpty(xs: seq<string>): (ys: seq<string>)
    ensures |ys| <= |xs|
    ensures forall i :: 0 <= i < |ys| ==> ys[i] != []
  {
    if xs == [] then []
    else (if xs[0] != [] then [xs[0]] else []) + NonEmpty(xs[1..])
  }

  /** The filter keeps every non-empty string as often as it occurs and drops the empty ones. */
  lemma {:induction false} NonEmptyFacts(xs: seq<string>)
    ensures forall y :: y in NonEmpty(xs) <==> y in xs && y != []
    ensures forall y :: y != [] ==> multiset(NonEmpty(xs))[y] == multiset(xs)[y]
    ensures |NonEmpty(xs)| == |xs| - multiset(xs)[[]]
  {
    if xs != [] {
      NonEmptyFacts(xs[1..]);
      assert xs == [xs[0]] + xs[1..];
    }
  }

  /** The filter keeps the order of what it keeps: of two non-empty strings, the one first seen in `xs` is first seen in the result. */
  lemma {:induction false} NonEmptyFirstIndex(xs: seq<string>, a: string, b: string)
    requires a != [] && b != []
    ensures FirstIndex(NonEmpty(xs), a) < FirstIndex(NonEmpty(xs), b) <==> FirstIndex(xs, a) < FirstIndex(xs, b)
  {
    if xs != [] {
      var x, rest := xs[0], xs[1..];
      var kept := NonEmpty(rest);
      if x == [] {
        NonEmptyFirstIndex(rest, a, b);
        assert NonEmpty(xs) == kept;
        assert FirstIndex(xs, a) == 1 + FirstIndex(rest, a) && FirstIndex(xs, b) == 1 + FirstIndex(rest, b);
      } else {
        var ys := [x] + kept;
        assert NonEmpty(xs) == ys;
        assert ys[0] == x && ys[1..] == kept;
        if x != a && x != b {
          NonEmptyFirstIndex(rest, a, b);
          assert FirstIndex(ys, a) == 1 + FirstIndex(kept, a) && FirstIndex(ys, b) == 1 + FirstIndex(kept, b);
          assert FirstIndex(xs, a) == 1 + FirstIndex(rest, a) && FirstIndex(xs, b) == 1 + FirstIndex(rest, b);
        }
      }
    }
  }

  /**
   * The comprehension keeps the order of the log: of two paths, the one
   * whose line comes first is first in the list of changed paths.
   */
  lemma ChangedPathsFirstIndex(lines: seq<string>, a: string, b: string)
    requires a != [] && b != []
    ensures FirstIndex(ChangedPaths(lines), a) < FirstIndex(ChangedPaths(lines), b)
        <==> FirstIndex(StripAll(lines), a) < FirstIndex(StripAll(lines), b)
  {
    NonEmptyFirstIndex(StripAll(lines), a, b);
  }

  /**
   * The comprehension keeps the stripped form of exactly the lines that
   * are not blank, as often as they occur.
   */
  lemma ChangedPathsFacts(lines: seq<string>)
    ensures forall p :: p in ChangedPaths(lines) ==> p != [] && Strip(p) == p
    ensures forall p :: p != [] ==> multiset(ChangedPaths(lines))[p] == multiset(StripAll(lines))[p]
    ensures |ChangedPaths(lines)| == |lines| - multiset(StripAll(lines))[[]]
  {
    NonEmptyFacts(StripAll(lines));
    forall p | p in ChangedPaths(lines) ensures Strip(p) == p {
      var i :| 0 <= i < |lines| && StripAll(lines)[i] == p;
      StripIdempotent(lines[i]);
    }
  }

  /** Lines with no surrounding whitespace (as git prints paths) are kept as they are, blank ones dropped. */
  lemma {:induction false} ChangedPathsUnpadded(lines: seq<string>)
    requires forall i :: 0 <= i < |lines| ==> Unpadded(lines[i])
    ensures ChangedPaths(lines) == NonEmpty(lines)
  {
    forall i | 0 <= i < |lines| ensures StripAll(lines)[i] == lines[i] {
      StripUnpadded(lines[i]);
    }
    assert StripAll(lines) == lines;
  }

  /**
   * `top_changed_files`: how many times each path is named in the name-only
   * log, ranked by that count, descending, with equal counts in the order
   * their paths first appear.
   */
  method TopChangedFiles(out: string) returns (ranking: seq<(string, nat)>)
    ensures ranking == ChangeRanking(ChangedPaths(SplitLines(out)))
  {
    var files := ChangedPaths(SplitLines(out));
    var stats := Count(files);
    TallyValid(files);
    ranking := Rank(CountRank, stats.Items());
  }

  /** `sorted(counter.items(), key=lambda x: x[1], reverse=True)` over the counted paths. */
  function ChangeRanking(files: seq<string>): (ranking: seq<(string, nat)>)
    ensures |ranking| <= |files|
    ensures Descending(CountRank, ranking)
  {
    TallyValid(files);
    TallySize(files);
    Rank(CountRank, Tally(files).Items())
  }

  /**
   * The ranking lists every changed path exactly once, with the number of
   * times it was named, by descending count, equal counts in the order the
   * paths first appear, the counts adding up to the number of names.
   */
  lemma {:induction false} RankedCounts(files: seq<string>)
    ensures var ranking := ChangeRanking(files);
      && (forall i :: 0 <= i < |ranking| ==>
            ranking[i].0 in files && ranking[i].1 == multiset(files)[ranking[i].0])
      && (forall p :: p in files ==> exists i :: 0 <= i < |ranking| && ranking[i].0 == p)
      && (forall i, j :: 0 <= i < j < |ranking| ==> ranking[i].0 != ranking[j].0)
      && Descending(CountRank, ranking)
      && (forall i, j :: 0 <= i < j < |ranking| && ranking[i].1 == ranking[j].1 ==>
            FirstIndex(files, ranking[i].0) < FirstIndex(files, ranking[j].0))
      && KeySum(CountRank, ranking) == |files|
  {
    var stats := Tally(files);
    TallyFacts(files);
    TallyKeys(files);
    RankedItems(CountRank, stats, files);
    RankKeySum(CountRank, stats.Items());
    ItemsCountSum(stats);
    assert ChangeRanking(files) == Rank(CountRank, stats.Items());
  }

  /** The counts of a dictionary's items add up to its total. */
  lemma ItemsCountSum(d: Dict<nat>)
    requires d.Valid()
    ensures KeySum(CountRank, d.Items()) == Total(d)
  {
    PairsCountSum(d.keys, d.values);
  }

  lemma {:induction false} PairsCountSum(ks: seq<string>, m: map<string, nat>)
    requires forall i :: 0 <= i < |ks| ==> ks[i] in m
    ensures KeySum(CountRank, Pairs(ks, m)) == SumOver(ks, m)
  {
    if ks != [] {
      var n := |ks| - 1;
      PairsCountSum(ks[..n], m);
      KeySumConcat(CountRank, Pairs(ks[..n], m), [(ks[n], m[ks[n]])]);
    }
  }

  /** The `extension_stats` bucket of every tracked path. */
  function ExtensionTokens(files: seq<string>): (tokens: seq<string>)
    ensures |tokens| == |files|
    ensures forall i :: 0 <= i < |files| ==> tokens[i] == ExtensionToken(files[i])
  {
    seq(|files|, i requires 0 <= i < |files| => ExtensionToken(files[i]))
  }

  /**
   * `extension_stats`: how many tracked files fall in each extension bucket;
   * each file is counted once, under its `splitext` extension or "<noext>".
   */
  method ExtensionStats(out: string) returns (stats: Dict<nat>)
    ensures stats == Tally(ExtensionTokens(SplitLines(out)))
  {
    var files := SplitLines(out);
    ghost var tokens := ExtensionTokens(files);
    stats := Empty();
    for i := 0 to |files|
      invariant stats == Tally(tokens[..i])
    {
      var ext := ExtensionToken(files[i]);
      TallyStep(tokens, i, stats, ext);
      stats := stats.Put(ext, stats.GetOr(ext, 0) + 1);
    }
    assert tokens[..|tokens|] == tokens;
  }

  /**
   * Each tracked file is counted exactly once, in the bucket of its own
   * extension: a bucket's count is the number of files with that token,
   * the buckets are exactly the tokens that occur, every bucket is
   * "<noext>" or a dotted extension, and the counts add up to the number
   * of files.
   */
  lemma ExtensionStatsFacts(files: seq<string>)
    ensures var stats := Tally(ExtensionTokens(files));
      && stats.Valid()
      && (forall t :: t in stats.values <==> t in ExtensionTokens(files))
      && (forall t :: stats.GetOr(t, 0) == multiset(ExtensionTokens(files))[t])
      && Total(stats) == |files|
      && (forall t :: t in stats.values ==> t == NoExtension || (t != [] && t[0] == '.'))
  {
    var tokens := ExtensionTokens(files);
    TallyFacts(tokens);
    forall t | t in Tally(tokens).values ensures t == NoExtension || (t != [] && t[0] == '.') {
      var i :| 0 <= i < |tokens| && tokens[i] == t;
      ExtensionTokenShape(files[i]);
      assert t == NoExtension || Extension(files[i]) != [];
    }
  }

  /**
   * `file_line_changes`: per path, the added and removed totals and the
   * number of stat lines naming it, ranked by added plus removed,
   * descending, with equal churn in the order the paths first appear.
   */
  method FileLineChanges(out: string) returns (ranking: seq<(string, Churn)>)
    ensures ranking == ChurnRanking(SplitLines(out))
  {
    var lines := SplitLines(out);
    var result: Dict<Churn> := Empty();
    for i := 0 to |lines|
      invariant result == Churns(lines[..i])
    {
      assert lines[..i + 1] == lines[..i] + [lines[i]];
      ChurnsAppend(lines[..i], lines[i]);
      result := RecordLine(result, lines[i]);
    }
    assert lines[..|lines|] == lines;
    ChurnsValid(lines);
    ranking := Rank(ChurnRank, result.Items());
  }

  /**
   * The body of the `file_line_changes` loop for one line: skip it unless it
   * splits into three fields, start a zero record for a new path, add each
   * count that is all digits, and count the line.
   */
  method RecordLine(d: Dict<Churn>, line: string) returns (d': Dict<Churn>)
    ensures d' == Record(d, line)
  {
    var parts := SplitOn(line, '\t');
    if |parts| != 3 {
      return d;
    }
    var added, removed, fname := parts[0], parts[1], parts[2];
    d' := d;
    if fname !in d'.values {
      d' := d'.Put(fname, NoChurn);
    }
    var record := d'.values[fname];
    if IsDigitString(added) {
      record := record.(added := record.added + DigitsValue(added));
    }
    if IsDigitString(removed) {
      record := record.(removed := record.removed + DigitsValue(removed));
    }
    record := record.(commits := record.commits + 1);
    d' := d'.Put(fname, record);
  }

  /** `sorted(stats.items(), key=lambda x: x[1]["added"] + x[1]["removed"], reverse=True)` */
  function ChurnRanking(lines: seq<string>): (ranking: seq<(string, Churn)>)
    ensures |ranking| <= |lines|
    ensures Descending(ChurnRank, ranking)
  {
    ChurnsValid(lines);
    Rank(ChurnRank, Churns(lines).Items())
  }

  /**
   * The ranking lists every path a kept stat line names exactly once, with
   * its summed added and removed counts and its number of stat lines, by
   * descending churn, equal churn in the order the paths first appear.
   */
  lemma {:induction false} RankedChurn(lines: seq<string>)
    ensures var ranking := ChurnRanking(lines);
      && (forall i :: 0 <= i < |ranking| ==>
            var path := ranking[i].0;
            && path in KeptPaths(lines)
            && ranking[i].1
                 == Churn(AddedFor(lines, path), RemovedFor(lines, path), multiset(KeptPaths(lines))[path]))
      && (forall p :: p in KeptPaths(lines) ==> exists i :: 0 <= i < |ranking| && ranking[i].0 == p)
      && (forall i, j :: 0 <= i < j < |ranking| ==> ranking[i].0 != ranking[j].0)
      && Descending(ChurnRank, ranking)
      && (forall i, j :: 0 <= i < j < |ranking| && ChurnRank(ranking[i]) == ChurnRank(ranking[j]) ==>
            FirstIndex(KeptPaths(lines), ranking[i].0) < FirstIndex(KeptPaths(lines), ranking[j].0))
  {
    ChurnsValid(lines);
    ChurnKeys(lines);
    RankedItems(ChurnRank, Churns(lines), KeptPaths(lines));
    RankedChurnRecords(lines);
    var ranking := ChurnRanking(lines);
    assert ranking == Rank(ChurnRank, Churns(lines).Items());
  }

  lemma {:induction false} RankedChurnRecords(lines: seq<string>)
    ensures var ranking := ChurnRanking(lines);
      forall i :: 0 <= i < |ranking| ==>
        var path := ranking[i].0;
        && path in KeptPaths(lines)
        && ranking[i].1
             == Churn(AddedFor(lines, path), RemovedFor(lines, path), multiset(KeptPaths(lines))[path])
  {
    ChurnsValid(lines);
    var d := Churns(lines);
    var ranking := Rank(ChurnRank, d.Items());
    assert ChurnRanking(lines) == ranking;
    RankedEntries(ChurnRank, d);
    assert forall i :: 0 <= i < |Rank(ChurnRank, d.Items())| ==> Rank(ChurnRank, d.Items())[i].0 in d.values;
    forall i | 0 <= i < |ranking|
      ensures var path := ranking[i].0;
        && path in KeptPaths(lines)
        && ranking[i].1
             == Churn(AddedFor(lines, path), RemovedFor(lines, path), multiset(KeptPaths(lines))[path])
    {
      assert ranking[i].0 in d.values && ranking[i].1 == d.values[ranking[i].0];
      ChurnRecord(lines, ranking[i].0);
    }
  }

  /** The ranking key of `top_changed_files`: the count. */
  function CountRank(entry: (string, nat)): nat {
    entry.1
  }

  /** The ranking key of `file_line_changes`: lines added plus lines removed. */
  function ChurnRank(entry: (string, Churn)): (churn: nat)
    ensures churn >= entry.1.added && churn >= entry.1.removed
  {
    entry.1.added + entry.1.removed
  }

  /**
   * What ranking the items of a dictionary whose keys are the distinct
   * elements of `xs` gives: each key once with its own value, ranked, ties
   * in the order of the keys' first occurrence in `xs`.
   */
  lemma {:induction false} RankedItems<V>(rank: ((string, V)) -> nat, d: Dict<V>, xs: seq<string>)
    requires d.Valid()
    requires d.keys == Distinct(xs)
    ensures var r := Rank(rank, d.Items());
      && (forall i :: 0 <= i < |r| ==> r[i].0 in d.values && r[i].1 == d.values[r[i].0])
      && (forall k :: k in xs ==> exists i :: 0 <= i < |r| && r[i].0 == k)
      && (forall i, j :: 0 <= i < j < |r| ==> r[i].0 != r[j].0)
      && (forall i, j :: 0 <= i < j < |r| && rank(r[i]) == rank(r[j]) ==>
            FirstIndex(xs, r[i].0) < FirstIndex(xs, r[j].0))
  {
    RankedEntries(rank, d);
    forall k | k in xs ensures k in d.values {
      assert k in d.keys;
    }
    DistinctPermutation(d.Items(), Rank(rank, d.Items()));
    RankedTies(rank, d, xs);
  }

  lemma RankedEntries<V>(rank: ((string, V)) -> nat, d: Dict<V>)
    requires d.Valid()
    ensures var r := Rank(rank, d.Items());
      && (forall i :: 0 <= i < |r| ==> r[i].0 in d.values && r[i].1 == d.values[r[i].0])
      && (forall k :: k in d.values ==> exists i :: 0 <= i < |r| && r[i].0 == k)
  {
    var items := d.Items();
    var r := Rank(rank, items);
    forall i | 0 <= i < |r| ensures r[i].0 in d.values && r[i].1 == d.values[r[i].0] {
      assert r[i] in multiset(items);
    }
    forall k | k in d.values ensures exists i :: 0 <= i < |r| && r[i].0 == k {
      var p :| 0 <= p < |d.keys| && d.keys[p] == k;
      assert items[p] in multiset(r);
    }
  }

  lemma {:induction false} RankedTies<V>(rank: ((string, V)) -> nat, d: Dict<V>, xs: seq<string>)
    requires d.Valid()
    requires d.keys == Distinct(xs)
    ensures var r := Rank(rank, d.Items());
      forall i, j :: 0 <= i < j < |r| && rank(r[i]) == rank(r[j]) ==>
        FirstIndex(xs, r[i].0) < FirstIndex(xs, r[j].0)
  {
    var items := d.Items();
    var r := Rank(rank, items);
    RankStable(rank, items);
    DistinctFirstSeen(xs);
    forall i, j | 0 <= i < j < |r| && rank(r[i]) == rank(r[j])
      ensures FirstIndex(xs, r[i].0) < FirstIndex(xs, r[j].0)
    {
      TieInFirstSeenOrder(rank, d, xs, r, i, j);
    }
  }

  lemma {:induction false} TieInFirstSeenOrder<V>(rank: ((string, V)) -> nat, d: Dict<V>, xs: seq<string>, r: seq<(string, V)>, i: nat, j: nat)
    requires d.Valid()
    requires FirstSeenOrder(d.keys, xs)
    requires KeepsTieOrder(rank, d.Items(), r)
    requires i < j < |r| && rank(r[i]) == rank(r[j])
    ensures FirstIndex(xs, r[i].0) < FirstIndex(xs, r[j].0)
  {
    var items := d.Items();
    var p, q :| 0 <= p < q < |items| && items[p] == r[i] && items[q] == r[j];
    assert items[p].0 == d.keys[p] && items[q].0 == d.keys[q];
  }

  /** A permutation of items with distinct keys has distinct keys. */
  lemma DistinctPermutation<V>(items: seq<(string, V)>, r: seq<(string, V)>)
    requires multiset(items) == multiset(r)
    requires forall i, j :: 0 <= i < j < |items| ==> items[i].0 != items[j].0
    ensures forall i, j :: 0 <= i < j < |r| ==> r[i].0 != r[j].0
  {
    forall i, j | 0 <= i < j < |r| ensures r[i].0 != r[j].0 {
      if r[i].0 == r[j].0 {
        assert r[i] in multiset(items) && r[j] in multiset(items);
        var p :| 0 <= p < |items| && items[p] == r[i];
        var q :| 0 <= q < |items| && items[q] == r[j];
        assert p == q;
        assert r[i] == r[j];
        OccursTwice(r, i, j);
        AtMostOnce(items, p);
        assert false;
      }
    }
  }

  lemma OccursTwice<T>(s: seq<T>, i: nat, j: nat)
    requires i < j < |s| && s[i] == s[j]
    ensures multiset(s)[s[i]] >= 2
  {
    assert s == s[..j] + s[j..];
    assert s[i] in s[..j];
    assert s[j] in s[j..];
  }

  lemma AtMostOnce<V>(items: seq<(string, V)>, p: nat)
    requires p < |items|
    requires forall i, j :: 0 <= i < j < |items| ==> items[i].0 != items[j].0
    ensures multiset(items)[items[p]] == 1
  {
    var x := items[p];
    assert items == items[..p] + [x] + items[p + 1..];
    assert x !in items[..p];
    assert x !in items[p + 1..];
  }

  /*
   * The three lemmas below state what the traces built by `Issue` in
   * `AnalyzeRepo` are. They are separate lemmas because, inside the method,
   * the facts about the six statistics are in scope, and the solver then
   * cannot settle even a two-element sequence equality within its limits;
   * here only the concatenations are in scope.
   */
  lemma FirstIssued(t1: seq<Query>)
    requires t1 == [] + [InsideWorkTree]
    ensures t1 == [InsideWorkTree]
  {
  }

  lemma SecondIssued(t1: seq<Query>, t2: seq<Query>)
    requires t1 == [] + [InsideWorkTree] && t2 == t1 + [CommitCount]
    ensures t2 == [InsideWorkTree, CommitCount]
  {
  }

  /** Issuing the seven commands one after another, in report order, is issuing `AllQueries`. */
  lemma AllIssued(t1: seq<Query>, t2: seq<Query>, t3: seq<Query>, t4: seq<Query>, t5: seq<Query>, t6: seq<Query>, t7: seq<Query>)
    requires t1 == [] + [InsideWorkTree] && t2 == t1 + [CommitCount] && t3 == t2 + [CommitHashLog]
    requires t4 == t3 + [CommitDateLog] && t5 == t4 + [NameOnlyLog] && t6 == t5 + [TrackedFiles]
    requires t7 == t6 + [NumstatLog]
    ensures t7 == AllQueries
  {
  }

  /**
   * `analyze_repo`: stop with an error unless the validity check passes,
   * then compute the six statistics in the report's order; an invalid
   * commit count aborts the report before any later command runs.
   * Every output is read through `Issue`, so `queried` lists the commands
   * whose output was read, in the order they were run.
   */
  method AnalyzeRepo(stdout: Query -> string) returns (r: Result<Report, AnalysisError>, queried: seq<Query>)
    ensures !IsGitRepo(Run(stdout, InsideWorkTree)) ==> r == Failure(NotARepository) && queried == [InsideWorkTree]
    ensures IsGitRepo(Run(stdout, InsideWorkTree)) && TotalCommits(Run(stdout, CommitCount)).None? ==>
              r == Failure(InvalidCommitCount) && queried == [InsideWorkTree, CommitCount]
    ensures r.Success? <==> IsGitRepo(Run(stdout, InsideWorkTree)) && TotalCommits(Run(stdout, CommitCount)).Some?
    ensures r.Success? ==>
              && queried == AllQueries
              && r.value == Report(
                   TotalCommits(Run(stdout, CommitCount)).value,
                   CommitHashes(Run(stdout, CommitHashLog)),
                   Tally(SplitLines(Run(stdout, CommitDateLog))),
                   ChangeRanking(ChangedPaths(SplitLines(Run(stdout, NameOnlyLog)))),
                   Tally(ExtensionTokens(SplitLines(Run(stdout, TrackedFiles)))),
                   ChurnRanking(SplitLines(Run(stdout, NumstatLog))))
  {
    var check, countOut, hashLog, dateLog, nameLog, fileList, statLog;
    check, queried := Issue(stdout, InsideWorkTree, []);
    ghost var t1 := queried;
    if !IsGitRepo(check) {
      FirstIssued(t1);
      return Failure(NotARepository), queried;
    }
    countOut, queried := Issue(stdout, CommitCount, queried);
    ghost var t2 := queried;
    var count := TotalCommits(countOut);
    if count.None? {
      SecondIssued(t1, t2);
      return Failure(InvalidCommitCount), queried;
    }
    hashLog, queried := Issue(stdout, CommitHashLog, queried);
    ghost var t3 := queried;
    var hashes := CommitHashes(hashLog);
    dateLog, queried := Issue(stdout, CommitDateLog, queried);
    ghost var t4 := queried;
    var byDate := CommitsByDate(dateLog);
    nameLog, queried := Issue(stdout, NameOnlyLog, queried);
    ghost var t5 := queried;
    var top := TopChangedFiles(nameLog);
    fileList, queried := Issue(stdout, TrackedFiles, queried);
    ghost var t6 := queried;
    var extensions := ExtensionStats(fileList);
    statLog, queried := Issue(stdout, NumstatLog, queried);
    AllIssued(t1, t2, t3, t4, t5, t6, queried);
    var churn := FileLineChanges(statLog);
    r := Success(Report(count.value, hashes, byDate, top, extensions, churn));
  }
}
