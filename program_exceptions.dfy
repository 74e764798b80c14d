/**
 * The compiler's diagnostics list (program/ProgramException.java): `(line, code)`
 * entries appended as errors are found, then sorted by line before printing.
 */
module ProgramExceptions {
  import opened JavaInt
  import opened Outcomes
  import opened Text

  /** One diagnostic: a 1-based line number and an error letter. */
  datatype Diagnostic = Diagnostic(line: int, code: char)

  /** `toString`: the line number, one space, then the code character. */
  function Render(d: Diagnostic): (s: string) {
    IntToString(d.line) + " " + [d.code]
  }

  /** The printed form can be read back: two characters from the end sit the space and the code. */
  lemma {:induction false} RenderReadsBack(d: Diagnostic)
    requires MIN <= d.line <= MAX
    ensures var s := Render(d);
      |s| >= 3 && s[|s| - 1] == d.code && s[|s| - 2] == ' ' && ParseInt(s[..|s| - 2]) == Ok(d.line)
  {
    var s := Render(d);
    IntToStringSign(d.line);
    assert s[..|s| - 2] == IntToString(d.line);
    ParseIntOfIntToString(d.line);
  }

  predicate SortedByLine(s: seq<Diagnostic>) {
    forall i, j :: 0 <= i < j < |s| ==> s[i].line <= s[j].line
  }

  /** The entries of `s` with line `n`, in their order in `s`. */
  function WithLine(s: seq<Diagnostic>, n: int): seq<Diagnostic> {
    if s == [] then []
    else (if s[0].line == n then [s[0]] else []) + WithLine(s[1..], n)
  }

  /** Places `d` before the first entry whose line is not smaller. */
  function InsertByLine(d: Diagnostic, s: seq<Diagnostic>): seq<Diagnostic> {
    if s == [] || d.line <= s[0].line then [d] + s
    else [s[0]] + InsertByLine(d, s[1..])
  }

  /**
   * `List.sort` with the comparator `o1.line - o2.line`: a stable sort by line.
   * Entries are inserted from the back, so an earlier entry lands in front of the
   * later ones with the same line.
   */
  function StableSortByLine(s: seq<Diagnostic>): seq<Diagnostic> {
    if s == [] then [] else InsertByLine(s[0], StableSortByLine(s[1..]))
  }

  lemma {:induction false} InsertByLinePermutes(d: Diagnostic, s: seq<Diagnostic>)
    ensures multiset(InsertByLine(d, s)) == multiset(s) + multiset{d}
  {
    if s != [] && d.line > s[0].line {
      InsertByLinePermutes(d, s[1..]);
      assert s == [s[0]] + s[1..];
    }
  }

  lemma {:induction false} InsertByLineSorted(d: Diagnostic, s: seq<Diagnostic>)
    requires SortedByLine(s)
    ensures SortedByLine(InsertByLine(d, s))
  {
    var r := InsertByLine(d, s);
    if s != [] && d.line > s[0].line {
      var t := InsertByLine(d, s[1..]);
      InsertByLineSorted(d, s[1..]);
      InsertByLinePermutes(d, s[1..]);
      assert r == [s[0]] + t;
      forall j | 0 < j < |r| ensures s[0].line <= r[j].line {
        assert r[j] == t[j - 1];
        assert t[j - 1] in multiset(t);
        if t[j - 1] != d {
          assert t[j - 1] in multiset(s[1..]);
          var k :| 0 <= k < |s[1..]| && s[1..][k] == t[j - 1];
          assert s[k + 1] == t[j - 1];
        }
      }
    }
  }

  lemma {:induction false} InsertByLineKeepsOrder(d: Diagnostic, s: seq<Diagnostic>, n: int)
    ensures WithLine(InsertByLine(d, s), n) == (if d.line == n then [d] else []) + WithLine(s, n)
  {
    var r := InsertByLine(d, s);
    if s == [] || d.line <= s[0].line {
      assert r[1..] == s;
    } else {
      InsertByLineKeepsOrder(d, s[1..], n);
      assert r[1..] == InsertByLine(d, s[1..]);
    }
  }

  /** Sorting leaves the lines non-decreasing. */
  lemma {:induction false} StableSortSorted(s: seq<Diagnostic>)
    ensures SortedByLine(StableSortByLine(s))
  {
    if s != [] {
      StableSortSorted(s[1..]);
      InsertByLineSorted(s[0], StableSortByLine(s[1..]));
    }
  }

  /** Sorting is a permutation of the entries. */
  lemma {:induction false} StableSortPermutes(s: seq<Diagnostic>)
    ensures multiset(StableSortByLine(s)) == multiset(s)
  {
    if s != [] {
      StableSortPermutes(s[1..]);
      InsertByLinePermutes(s[0], StableSortByLine(s[1..]));
      assert s == [s[0]] + s[1..];
    }
  }

  /** Entries with the same line keep their insertion order. */
  lemma {:induction false} StableSortKeepsOrder(s: seq<Diagnostic>, n: int)
    ensures WithLine(StableSortByLine(s), n) == WithLine(s, n)
  {
    if s != [] {
      StableSortKeepsOrder(s[1..], n);
      InsertByLineKeepsOrder(s[0], StableSortByLine(s[1..]), n);
    }
  }

  /** The program-wide list `ProgramException.exceptions`, as an explicit object. */
  class ExceptionList {
    var entries: seq<Diagnostic>

    constructor ()
      ensures entries == []
    {
      entries := [];
    }

    /** `newException`: appends one entry at the end. */
    method NewException(line: int, code: char)
      modifies this
      ensures entries == old(entries) + [Diagnostic(line, code)]
    {
      entries := entries + [Diagnostic(line, code)];
    }

    /** Appends several entries in order (a run of `newException` calls). */
    method AppendAll(ds: seq<Diagnostic>)
      modifies this
      ensures entries == old(entries) + ds
    {
      entries := entries + ds;
    }

    /** `sortExceptions`: a stable sort of the list by line, in place. */
    method SortExceptions()
      modifies this
      ensures entries == StableSortByLine(old(entries))
      ensures SortedByLine(entries) && multiset(entries) == multiset(old(entries))
      ensures forall n :: WithLine(entries, n) == WithLine(old(entries), n)
    {
      ghost var before := entries;
      entries := StableSortByLine(entries);
      StableSortSorted(before);
      StableSortPermutes(before);
      forall n ensures WithLine(entries, n) == WithLine(before, n) {
        StableSortKeepsOrder(before, n);
      }
    }
  }
}
