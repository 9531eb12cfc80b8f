/**
 * Worked examples: each producer on a small concrete output, and the whole
 * analysis on one set of canned command outputs. Each example takes its
 * concrete input as a parameter pinned down by its precondition instead of
 * naming the literal in its body: the verifier unfolds recursive functions
 * such as `SplitOn` and `Tally` eagerly on literal strings, which makes a
 * proof over literals far costlier than the same proof over a variable.
 * For the same reason the steps live in small modules, so that each one is
 * checked with only the definitions it uses.
 */

/** How `run` trims and how the producers split the example outputs. */
module TextExamples {
  import opened Wrappers
  import opened Text

  lemma NameOnlyLines(out: string)
    requires out == "a.txt\n\nb.py\na.txt"
    ensures SplitLines(out) == ["a.txt", "", "b.py", "a.txt"]
  {
    var lines := ["a.txt", "", "b.py", "a.txt"];
    assert JoinOn(lines, '\n') == out;
    SplitLinesOfJoin(lines);
  }

  lemma TiedLogLines(out: string)
    requires out == "b.py\n\na.txt"
    ensures SplitLines(out) == ["b.py", "", "a.txt"]
  {
    var lines := ["b.py", "", "a.txt"];
    assert JoinOn(lines, '\n') == out;
    SplitLinesOfJoin(lines);
  }

  /** Three newline-free lines, the last non-empty, joined by newlines split back into those lines. */
  lemma ThreeLines(out: string, first: string, second: string, third: string)
    requires out == first + "\n" + second + "\n" + third
    requires '\n' !in first && '\n' !in second && '\n' !in third && third != []
    ensures SplitLines(out) == [first, second, third]
  {
    var lines := [first, second, third];
    assert JoinOn(lines, '\n') == out by {
      assert JoinOn(lines[2..], '\n') == third;
      assert JoinOn(lines[1..], '\n') == second + "\n" + third;
    }
    SplitLinesOfJoin(lines);
  }

  lemma TwoLines(out: string, first: string, second: string)
    requires out == first + "\n" + second
    requires '\n' !in first && '\n' !in second && second != []
    ensures SplitLines(out) == [first, second]
  {
    var lines := [first, second];
    assert JoinOn(lines, '\n') == out by {
      assert JoinOn(lines[1..], '\n') == second;
    }
    SplitLinesOfJoin(lines);
  }

  /** `run` on an output that neither starts nor ends with whitespace, with or without git's final newline. */
  lemma Trimmed(out: string)
    requires || out == "true" || out == "2" || out == "n/a" || out == "h2\nh1" || out == "2024-01-02\n2024-01-01"
             || out == "a.txt\n\nb.py\na.txt" || out == "a.txt\nb.py\nMakefile"
             || out == "3\t1\ta.txt\n0\t0\tb.py\n5\t2\ta.txt"
    ensures Strip(out) == out
    ensures Strip(out + "\n") == out
  {
    StripUnpadded(out);
    StripTrailingSpace(out, '\n');
  }

  lemma TrimmedFalse(raw: string)
    requires raw == "false\n"
    ensures Strip(raw) == "false"
  {
    assert raw == "false" + "\n";
    StripTrailingSpace("false", '\n');
  }

  /** `int` on the two commit counts of the examples. */
  lemma CountsParsed()
    ensures ParseDecimal("2") == Some(2)
    ensures ParseDecimal("n/a") == None
  {
    assert IsDigitString("2");
    assert !IsDigit('n');
  }
}

/** The counting loop on the example paths, dates and extension buckets. */
module DictExamples {
  import opened Dicts

  lemma {:induction false} NameOnlyTally(xs: seq<string>, a: string, b: string)
    requires xs == [a, b, a] && a == "a.txt" && b == "b.py"
    ensures Tally(xs) == Dict(["a.txt", "b.py"], map["a.txt" := 2, "b.py" := 1])
  {
    var m := map[a := 1, b := 1];
    assert Tally(xs[..2]) == Dict([a, b], m) by {
      assert a != b by { assert |a| != |b|; }
      PairTally(xs[..2], a, b);
    }
    assert m[a := 2] == map[a := 2, b := 1] by { assert |a| != |b|; }
    TallySnoc(xs[..2], a);
    assert xs[..2] + [a] == xs;
  }

  lemma NameOnlyItems(d: Dict<nat>)
    requires d == Dict(["a.txt", "b.py"], map["a.txt" := 2, "b.py" := 1])
    ensures d.Valid() && d.Items() == [("a.txt", 2), ("b.py", 1)]
  {
  }

  /** Two distinct items, each counted once, keep the order they came in. */
  lemma {:induction false} PairTally(xs: seq<string>, a: string, b: string)
    requires xs == [a, b] && a != b
    ensures Tally(xs) == Dict([a, b], map[a := 1, b := 1])
    ensures Tally(xs).Valid() && Tally(xs).Items() == [(a, 1), (b, 1)]
  {
    TallySnoc([], a);
    assert [] + [a] == [a];
    TallySnoc([a], b);
    assert [a] + [b] == xs;
  }

  /** Two paths named once each, the later-sorting one first. */
  lemma {:induction false} TiedTally(xs: seq<string>, a: string, b: string)
    requires xs == [a, b] && a == "b.py" && b == "a.txt"
    ensures Tally(xs).Valid() && Tally(xs).Items() == [("b.py", 1), ("a.txt", 1)]
  {
    assert a != b by { assert |a| != |b|; }
    PairTally(xs, a, b);
  }

  /** The two commit dates of the example, one commit each. */
  lemma {:induction false} DatesTally(xs: seq<string>, a: string, b: string)
    requires xs == [a, b] && a == "2024-01-02" && b == "2024-01-01"
    ensures Tally(xs) == Dict(["2024-01-02", "2024-01-01"], map["2024-01-02" := 1, "2024-01-01" := 1])
  {
    assert a != b by { assert a[9] != b[9]; }
    PairTally(xs, a, b);
  }

  lemma {:induction false} TrackedTally(xs: seq<string>)
    requires xs == [".txt", ".py", "<noext>"]
    ensures Tally(xs) == Dict([".txt", ".py", "<noext>"], map[".txt" := 1, ".py" := 1, "<noext>" := 1])
  {
    var a, b, c := xs[0], xs[1], xs[2];
    var m := map[a := 1, b := 1];
    assert Tally(xs[..2]) == Dict([a, b], m) by {
      assert a != b by { assert |a| != |b|; }
      PairTally(xs[..2], a, b);
    }
    assert c !in m by { assert |c| != |a| && |c| != |b|; }
    TallySnoc(xs[..2], c);
    assert xs[..2] + [c] == xs;
  }
}

/** The numstat accumulator on the example stat lines. */
module NumstatExamples {
  import opened Wrappers
  import opened Text
  import opened Dicts
  import opened Numstat
  import opened TextExamples

  lemma RecordFirst(line: string)
    requires line == "3\t1\ta.txt"
    ensures Record(Empty(), line) == Dict(["a.txt"], map["a.txt" := Churn(3, 1, 1)])
  {
    assert "3" + "\t" + "1" + "\t" + "a.txt" == line;
    StatFieldsOfJoin("3", "1", "a.txt");
    assert FieldValue("3") == 3 && FieldValue("1") == 1;
  }

  lemma RecordSecond(d: Dict<Churn>, line: string)
    requires d == Dict(["a.txt"], map["a.txt" := Churn(3, 1, 1)])
    requires line == "0\t0\tb.py"
    ensures Record(d, line) == Dict(["a.txt", "b.py"], map["a.txt" := Churn(3, 1, 1), "b.py" := Churn(0, 0, 1)])
  {
    assert "0" + "\t" + "0" + "\t" + "b.py" == line;
    StatFieldsOfJoin("0", "0", "b.py");
    assert FieldValue("0") == 0;
    assert "b.py" !in d.values by { assert |"b.py"| != |"a.txt"|; }
  }

  lemma RecordThird(d: Dict<Churn>, line: string)
    requires d == Dict(["a.txt", "b.py"], map["a.txt" := Churn(3, 1, 1), "b.py" := Churn(0, 0, 1)])
    requires line == "5\t2\ta.txt"
    ensures Record(d, line) == Dict(["a.txt", "b.py"], map["a.txt" := Churn(8, 3, 2), "b.py" := Churn(0, 0, 1)])
  {
    assert "5" + "\t" + "2" + "\t" + "a.txt" == line;
    StatFieldsOfJoin("5", "2", "a.txt");
    assert FieldValue("5") == 5 && FieldValue("2") == 2;
    var m := map["a.txt" := Churn(3, 1, 1), "b.py" := Churn(0, 0, 1)];
    assert m["a.txt" := Churn(8, 3, 2)] == map["a.txt" := Churn(8, 3, 2), "b.py" := Churn(0, 0, 1)] by {
      assert |"b.py"| != |"a.txt"|;
    }
  }

  lemma OneStatLine(l1: string)
    requires l1 == "3\t1\ta.txt"
    ensures Churns([l1]) == Dict(["a.txt"], map["a.txt" := Churn(3, 1, 1)])
  {
    ChurnsAppend([], l1);
    assert [] + [l1] == [l1];
    RecordFirst(l1);
  }

  lemma TwoStatLines(l1: string, l2: string)
    requires l1 == "3\t1\ta.txt" && l2 == "0\t0\tb.py"
    ensures Churns([l1, l2]) == Dict(["a.txt", "b.py"], map["a.txt" := Churn(3, 1, 1), "b.py" := Churn(0, 0, 1)])
  {
    OneStatLine(l1);
    ChurnsAppend([l1], l2);
    assert [l1] + [l2] == [l1, l2];
    RecordSecond(Churns([l1]), l2);
  }

  lemma {:induction false} NumstatChurns(lines: seq<string>, l1: string, l2: string, l3: string)
    requires lines == [l1, l2, l3]
    requires l1 == "3\t1\ta.txt" && l2 == "0\t0\tb.py" && l3 == "5\t2\ta.txt"
    ensures Churns(lines) == Dict(["a.txt", "b.py"], map["a.txt" := Churn(8, 3, 2), "b.py" := Churn(0, 0, 1)])
  {
    TwoStatLines(l1, l2);
    ChurnsAppend([l1, l2], l3);
    assert [l1, l2] + [l3] == lines;
    RecordThird(Churns([l1, l2]), l3);
  }

  lemma NumstatItems(d: Dict<Churn>)
    requires d == Dict(["a.txt", "b.py"], map["a.txt" := Churn(8, 3, 2), "b.py" := Churn(0, 0, 1)])
    ensures d.Valid() && d.Items() == [("a.txt", Churn(8, 3, 2)), ("b.py", Churn(0, 0, 1))]
  {
  }

  /** The records `file_line_changes` builds from the example numstat output. */
  lemma NumstatRecords(out: string)
    requires out == "3\t1\ta.txt\n0\t0\tb.py\n5\t2\ta.txt"
    ensures Churns(SplitLines(out)).Valid()
    ensures Churns(SplitLines(out)).Items() == [("a.txt", Churn(8, 3, 2)), ("b.py", Churn(0, 0, 1))]
  {
    var lines := SplitLines(out);
    ThreeLines(out, "3\t1\ta.txt", "0\t0\tb.py", "5\t2\ta.txt");
    NumstatChurns(lines, lines[0], lines[1], lines[2]);
    NumstatItems(Churns(lines));
  }

  /** A binary file's "-" counts add nothing, but its stat line is still counted. */
  lemma {:induction false} BinaryStatExample(lines: seq<string>, line: string)
    requires lines == [line] && line == "-\t-\tlogo.png"
    ensures Churns(lines) == Dict(["logo.png"], map["logo.png" := Churn(0, 0, 1)])
  {
    assert Record(Empty(), line) == Dict(["logo.png"], map["logo.png" := Churn(0, 0, 1)]) by {
      assert "-" + "\t" + "-" + "\t" + "logo.png" == line;
      StatFieldsOfJoin("-", "-", "logo.png");
      assert !IsDigitString("-");
    }
    ChurnsAppend(lines[..0], line);
    assert lines[..0] + [line] == lines;
    assert Churns(lines[..0]) == Empty();
  }
}

/** The producers on the examples, composed from the steps above, and the whole analysis. */
module Scenarios {
  import opened Wrappers
  import opened Text
  import opened Paths
  import opened Dicts
  import opened Ranking
  import opened Numstat
  import opened Analyzer
  import opened TextExamples
  import opened DictExamples
  import opened NumstatExamples

  // ---- top_changed_files on a name-only log with a blank line ----

  /** The filter drops the one blank line between two non-empty ones. */
  lemma {:induction false} DropsBlank(lines: seq<string>, a: string, b: string)
    requires lines == [a, "", b, a] && a != [] && b != []
    ensures NonEmpty(lines) == [a, b, a]
  {
    assert NonEmpty(lines[3..]) == [a] by { assert lines[3..][1..] == []; }
    assert NonEmpty(lines[2..]) == [b, a] by { assert lines[2..][1..] == lines[3..]; }
    assert NonEmpty(lines[1..]) == [b, a] by { assert lines[1..][1..] == lines[2..]; }
  }

  lemma NameOnlyPaths(lines: seq<string>, a: string, b: string)
    requires lines == [a, "", b, a] && a == "a.txt" && b == "b.py"
    ensures ChangedPaths(lines) == [a, b, a]
  {
    assert Unpadded(a) && Unpadded(b);
    assert forall i :: 0 <= i < |lines| ==> Unpadded(lines[i]);
    ChangedPathsUnpadded(lines);
    DropsBlank(lines, a, b);
  }

  /** A tally whose items are already in descending order is its own ranking. */
  lemma {:induction false} SortedChangeRanking(files: seq<string>, items: seq<(string, nat)>)
    requires Tally(files).Valid() && Tally(files).Items() == items
    requires Descending(CountRank, items)
    ensures ChangeRanking(files) == items
  {
    RankOfDescending(CountRank, items);
    assert ChangeRanking(files) == Rank(CountRank, items);
  }

  /** The blank line is dropped and "a.txt", named twice, ranks first. */
  lemma ChangedFilesExample(out: string)
    requires out == "a.txt\n\nb.py\na.txt"
    ensures ChangeRanking(ChangedPaths(SplitLines(out))) == [("a.txt", 2), ("b.py", 1)]
  {
    var files := ChangedPaths(SplitLines(out));
    assert files == ["a.txt", "b.py", "a.txt"] by {
      NameOnlyLines(out);
      NameOnlyPaths(SplitLines(out), "a.txt", "b.py");
    }
    NameOnlyTally(files, files[0], files[1]);
    NameOnlyItems(Tally(files));
    SortedChangeRanking(files, [("a.txt", 2), ("b.py", 1)]);
  }

  lemma TiedLogPaths(lines: seq<string>, a: string, b: string)
    requires lines == [a, "", b] && a == "b.py" && b == "a.txt"
    ensures ChangedPaths(lines) == [a, b]
  {
    assert forall i :: 0 <= i < |lines| ==> Unpadded(lines[i]);
    ChangedPathsUnpadded(lines);
    assert NonEmpty(lines[2..]) == [b] by { assert lines[2..][1..] == []; }
    assert NonEmpty(lines[1..]) == [b] by { assert lines[1..][1..] == lines[2..]; }
  }

  /** Two paths named once each keep the order in which the log names them, the blank line dropped. */
  lemma TiedLogExample(out: string)
    requires out == "b.py\n\na.txt"
    ensures ChangeRanking(ChangedPaths(SplitLines(out))) == [("b.py", 1), ("a.txt", 1)]
  {
    var files := ChangedPaths(SplitLines(out));
    assert files == ["b.py", "a.txt"] by {
      TiedLogLines(out);
      TiedLogPaths(SplitLines(out), "b.py", "a.txt");
    }
    TiedFilesExample(files);
  }

  /** Two paths named once each keep the order in which they were first named. */
  lemma TiedFilesExample(files: seq<string>)
    requires files == ["b.py", "a.txt"]
    ensures ChangeRanking(files) == [("b.py", 1), ("a.txt", 1)]
  {
    TiedTally(files, files[0], files[1]);
    SortedChangeRanking(files, [("b.py", 1), ("a.txt", 1)]);
  }

  // ---- extension_stats on three tracked files ----

  lemma TrackedTokens(files: seq<string>)
    requires files == ["a.txt", "b.py", "Makefile"]
    ensures ExtensionTokens(files) == [".txt", ".py", "<noext>"]
  {
    LastIndexOfAt(files[0], '/', -1);
    LastIndexOfAt(files[0], '.', 1);
    LastIndexOfAt(files[1], '/', -1);
    LastIndexOfAt(files[1], '.', 1);
    LastIndexOfAt(files[2], '/', -1);
    LastIndexOfAt(files[2], '.', -1);
  }

  /** One file per bucket; "Makefile" has no extension. */
  lemma ExtensionStatsExample(out: string)
    requires out == "a.txt\nb.py\nMakefile"
    ensures Tally(ExtensionTokens(SplitLines(out)))
         == Dict([".txt", ".py", "<noext>"], map[".txt" := 1, ".py" := 1, "<noext>" := 1])
  {
    ThreeLines(out, "a.txt", "b.py", "Makefile");
    TrackedTokens(SplitLines(out));
    TrackedTally(ExtensionTokens(SplitLines(out)));
  }

  // ---- file_line_changes on three stat lines ----

  /** Records whose items are already in descending order of churn are their own ranking. */
  lemma {:induction false} SortedChurnRanking(lines: seq<string>, items: seq<(string, Churn)>)
    requires Churns(lines).Valid() && Churns(lines).Items() == items
    requires Descending(ChurnRank, items)
    ensures ChurnRanking(lines) == items
  {
    RankOfDescending(ChurnRank, items);
    assert ChurnRanking(lines) == Rank(ChurnRank, items);
  }

  /** "a.txt" sums its two stat lines and outranks "b.py". */
  lemma LineChangesExample(out: string)
    requires out == "3\t1\ta.txt\n0\t0\tb.py\n5\t2\ta.txt"
    ensures ChurnRanking(SplitLines(out)) == [("a.txt", Churn(8, 3, 2)), ("b.py", Churn(0, 0, 1))]
  {
    NumstatRecords(out);
    SortedChurnRanking(SplitLines(out), [("a.txt", Churn(8, 3, 2)), ("b.py", Churn(0, 0, 1))]);
  }

  // ---- analyze_repo on one repository ----

  /**
   * What each command prints for a repository with two commits: the
   * `format:` logs end without a newline, the other commands with one.
   */
  function CannedOutput(q: Query): string {
    match q
    case InsideWorkTree => "true" + "\n"
    case CommitCount => "2" + "\n"
    case CommitHashLog => "h2\nh1"
    case CommitDateLog => "2024-01-02\n2024-01-01"
    case NameOnlyLog => "a.txt\n\nb.py\na.txt" + "\n"
    case TrackedFiles => "a.txt\nb.py\nMakefile" + "\n"
    case NumstatLog => "3\t1\ta.txt\n0\t0\tb.py\n5\t2\ta.txt" + "\n"
  }

  /** The report `analyze_repo` builds from the canned outputs. */
  const CannedReport := Report(
    2,
    ["h2", "h1"],
    Dict(["2024-01-02", "2024-01-01"], map["2024-01-02" := 1, "2024-01-01" := 1]),
    [("a.txt", 2), ("b.py", 1)],
    Dict([".txt", ".py", "<noext>"], map[".txt" := 1, ".py" := 1, "<noext>" := 1]),
    [("a.txt", Churn(8, 3, 2)), ("b.py", Churn(0, 0, 1))])

  /** Each command of the canned repository, once trimmed, prints its statistic's input. */
  lemma CannedRuns()
    ensures Run(CannedOutput, InsideWorkTree) == "true"
    ensures Run(CannedOutput, CommitCount) == "2"
    ensures Run(CannedOutput, CommitHashLog) == "h2\nh1"
    ensures Run(CannedOutput, CommitDateLog) == "2024-01-02\n2024-01-01"
    ensures Run(CannedOutput, NameOnlyLog) == "a.txt\n\nb.py\na.txt"
    ensures Run(CannedOutput, TrackedFiles) == "a.txt\nb.py\nMakefile"
    ensures Run(CannedOutput, NumstatLog) == "3\t1\ta.txt\n0\t0\tb.py\n5\t2\ta.txt"
  {
    Trimmed("true");
    Trimmed("2");
    Trimmed("h2\nh1");
    Trimmed("2024-01-02\n2024-01-01");
    Trimmed("a.txt\n\nb.py\na.txt");
    Trimmed("a.txt\nb.py\nMakefile");
    Trimmed("3\t1\ta.txt\n0\t0\tb.py\n5\t2\ta.txt");
  }

  /** The commit count, the hash list and the per-date histogram of the canned repository. */
  lemma CannedCommits(count: string, hashes: string, dates: string)
    requires count == "2" && hashes == "h2\nh1" && dates == "2024-01-02\n2024-01-01"
    ensures TotalCommits(count) == Some(2)
    ensures CommitHashes(hashes) == ["h2", "h1"]
    ensures Tally(SplitLines(dates)) == Dict(["2024-01-02", "2024-01-01"], map["2024-01-02" := 1, "2024-01-01" := 1])
  {
    CountsParsed();
    TwoLines(hashes, "h2", "h1");
    TwoLines(dates, "2024-01-02", "2024-01-01");
    DatesTally(SplitLines(dates), "2024-01-02", "2024-01-01");
  }

  /** The whole analysis of the canned repository runs every command and builds the expected report. */
  method AnalyzeCanned() returns (r: Result<Report, AnalysisError>, queried: seq<Query>)
    ensures r == Success(CannedReport) && queried == AllQueries
  {
    r, queried := AnalyzeRepo(CannedOutput);
    CannedRuns();
    CannedCommits(Run(CannedOutput, CommitCount), Run(CannedOutput, CommitHashLog), Run(CannedOutput, CommitDateLog));
    ChangedFilesExample(Run(CannedOutput, NameOnlyLog));
    ExtensionStatsExample(Run(CannedOutput, TrackedFiles));
    LineChangesExample(Run(CannedOutput, NumstatLog));
  }

  /**
   * Inside a repository's `.git` directory the validity check prints "false":
   * the analysis stops after that one command, whatever the others would print.
   */
  method AnalyzeOutsideWorkTree(stdout: Query -> string) returns (r: Result<Report, AnalysisError>, queried: seq<Query>)
    requires stdout(InsideWorkTree) == "false\n"
    ensures r == Failure(NotARepository) && queried == [InsideWorkTree]
  {
    TrimmedFalse(stdout(InsideWorkTree));
    r, queried := AnalyzeRepo(stdout);
  }

  /** A count that `int` rejects stops the analysis after the second command. */
  method AnalyzeBadCount(stdout: Query -> string) returns (r: Result<Report, AnalysisError>, queried: seq<Query>)
    requires stdout(InsideWorkTree) == "true" + "\n" && stdout(CommitCount) == "n/a" + "\n"
    ensures r == Failure(InvalidCommitCount) && queried == [InsideWorkTree, CommitCount]
  {
    Trimmed("true");
    Trimmed("n/a");
    CountsParsed();
    r, queried := AnalyzeRepo(stdout);
  }
}
