/** The number files: reading the input list (`read_numbers_from_file`), overwriting an
    output list (`write_numbers`) and appending one number (`append_number`). A file is
    its text content. */
module NumberFile {
  import opened Sequences
  import opened Text

  /** Where the line that starts `s` ends: just after its first newline, or at the end. */
  function LineEnd(s: string): (k: nat)
    requires s != []
    ensures 1 <= k <= |s|
    ensures '\n' !in s[..k - 1]
    ensures k < |s| ==> s[k - 1] == '\n'
    decreases |s|
  {
    if s[0] == '\n' || |s| == 1 then 1
    else
      var k := 1 + LineEnd(s[1..]);
      assert s[..k - 1] == [s[0]] + s[1..][..k - 2];
      k
  }

  /** The lines Python yields when iterating over a file opened for reading: each one
      keeps its terminating newline; the last one may lack it. Laid end to end they are
      the content. */
  function FileLines(content: string): (lines: seq<string>)
    ensures Concat(lines) == content
    decreases |content|
  {
    if content == [] then []
    else
      var k := LineEnd(content);
      assert content == content[..k] + content[k..];
      [content[..k]] + FileLines(content[k..])
  }

  /** Each line is non-empty and ends at its first newline; only the last may lack one. */
  lemma {:induction false} FileLinesShape(content: string)
    ensures forall i :: 0 <= i < |FileLines(content)| ==>
              FileLines(content)[i] != [] && '\n' !in FileLines(content)[i][..|FileLines(content)[i]| - 1]
    ensures forall i :: 0 <= i < |FileLines(content)| - 1 ==>
              FileLines(content)[i][|FileLines(content)[i]| - 1] == '\n'
    decreases |content|
  {
    if content != [] {
      var k := LineEnd(content);
      var rest := FileLines(content[k..]);
      FileLinesShape(content[k..]);
      assert FileLines(content) == [content[..k]] + rest;
      assert rest != [] ==> k < |content|;
    }
  }

  /** `[line.strip() for line in f]`. */
  function Trimmed(lines: seq<string>): (ts: seq<string>)
    ensures |ts| == |lines| && forall i :: 0 <= i < |ts| ==> ts[i] == Trim(lines[i])
  {
    seq(|lines|, i requires 0 <= i < |lines| => Trim(lines[i]))
  }

  /** The cleaning rule applied to the stripped lines, read from first to last: a blank
      line is skipped, a line already kept is skipped, any other line is kept. */
  function KeepFirst(ts: seq<string>): seq<string>
    decreases |ts|
  {
    if ts == [] then []
    else
      var kept := KeepFirst(ts[..|ts| - 1]);
      var t := ts[|ts| - 1];
      if t == "" || t in kept then kept else kept + [t]
  }

  /** The list `read_numbers_from_file` returns for a file with this content. */
  function Cleaned(content: string): seq<string>
  {
    KeepFirst(Trimmed(FileLines(content)))
  }

  /** The position of the first occurrence of `x` in `ts`, or `|ts|` when there is none. */
  function FirstAt(ts: seq<string>, x: string): (k: nat)
    ensures k <= |ts|
    ensures k < |ts| <==> x in ts
    ensures k < |ts| ==> ts[k] == x
    ensures forall i :: 0 <= i < k ==> ts[i] != x
    decreases |ts|
  {
    if ts == [] then 0 else if ts[0] == x then 0 else 1 + FirstAt(ts[1..], x)
  }

  /** A list of numbers as `read_numbers_from_file` produces it: every entry non-blank,
      already stripped, on one line, and no entry twice. */
  predicate IsCleanList(ns: seq<string>)
  {
    (forall i :: 0 <= i < |ns| ==> ns[i] != "" && Trim(ns[i]) == ns[i] && '\n' !in ns[i]) &&
    (forall i, j :: 0 <= i < j < |ns| ==> ns[i] != ns[j])
  }

  /** Reading the input file: strip every line, then keep each non-blank line the first
      time it is seen, using a set of lines seen so far. */
  method ReadNumbers(content: string) returns (cleaned: seq<string>)
    ensures cleaned == Cleaned(content)
    ensures IsCleanList(cleaned)
  {
    var lines := Trimmed(FileLines(content));
    cleaned := KeepFirstLoop(lines);
    CleanedIsClean(content);
  }

  /** The loop of `read_numbers_from_file` over the stripped lines. */
  method KeepFirstLoop(lines: seq<string>) returns (cleaned: seq<string>)
    ensures cleaned == KeepFirst(lines)
  {
    var seen: set<string> := {};
    cleaned := [];
    for i := 0 to |lines|
      invariant cleaned == KeepFirst(lines[..i])
      invariant forall x :: x in seen <==> x in cleaned
    {
      var line := lines[i];
      assert lines[..i + 1] == lines[..i] + [line];
      KeepFirstSnoc(lines[..i], line);
      if line == "" {
        continue;
      }
      if line !in seen {
        seen := seen + {line};
        cleaned := cleaned + [line];
      }
    }
    assert lines[..|lines|] == lines;
  }

  lemma KeepFirstSnoc(p: seq<string>, t: string)
    ensures KeepFirst(p + [t]) ==
            if t == "" || t in KeepFirst(p) then KeepFirst(p) else KeepFirst(p) + [t]
  {
    assert (p + [t])[..|p|] == p;
  }

  /** A number is kept exactly when it is a non-blank stripped line. */
  lemma {:induction false} KeepFirstMembers(ts: seq<string>, x: string)
    ensures x in KeepFirst(ts) <==> x != "" && x in ts
    decreases |ts|
  {
    if ts != [] {
      var p := ts[..|ts| - 1];
      KeepFirstMembers(p, x);
      assert ts == p + [ts[|ts| - 1]];
    }
  }

  /** No number is kept twice. */
  lemma {:induction false} KeepFirstDistinct(ts: seq<string>)
    ensures forall i, j :: 0 <= i < j < |KeepFirst(ts)| ==> KeepFirst(ts)[i] != KeepFirst(ts)[j]
    decreases |ts|
  {
    if ts != [] {
      KeepFirstDistinct(ts[..|ts| - 1]);
    }
  }

  lemma FirstAtExtend(p: seq<string>, t: string, x: string)
    requires x in p
    ensures FirstAt(p + [t], x) == FirstAt(p, x)
  {
    var k, k' := FirstAt(p, x), FirstAt(p + [t], x);
    assert (p + [t])[k] == x;
    if k' < k {
      assert p[k'] == (p + [t])[k'];
    }
  }

  /** Kept numbers appear in the order of their first occurrence among the lines. */
  lemma {:induction false} KeepFirstOrder(ts: seq<string>)
    ensures forall i, j :: 0 <= i < j < |KeepFirst(ts)| ==>
              FirstAt(ts, KeepFirst(ts)[i]) < FirstAt(ts, KeepFirst(ts)[j])
    decreases |ts|
  {
    if ts != [] {
      var p, t := ts[..|ts| - 1], ts[|ts| - 1];
      assert ts == p + [t];
      var kept := KeepFirst(p);
      KeepFirstOrder(p);
      forall x | x in kept ensures FirstAt(ts, x) == FirstAt(p, x) && FirstAt(p, x) < |p| {
        KeepFirstMembers(p, x);
        FirstAtExtend(p, t, x);
      }
      if t != "" && t !in kept {
        KeepFirstMembers(p, t);
        assert FirstAt(ts, t) == |p|;
        var r := KeepFirst(ts);
        assert r == kept + [t];
        forall i, j | 0 <= i < j < |r| ensures FirstAt(ts, r[i]) < FirstAt(ts, r[j]) {
          assert r[i] == kept[i];
          if j < |kept| {
            assert r[j] == kept[j];
          }
        }
      }
    }
  }

  /** A list that is already clean is its own cleaning. */
  lemma {:induction false} KeepFirstOfClean(ns: seq<string>)
    requires IsCleanList(ns)
    ensures KeepFirst(ns) == ns
    decreases |ns|
  {
    if ns != [] {
      var p := ns[..|ns| - 1];
      assert IsCleanList(p);
      KeepFirstOfClean(p);
      assert ns[|ns| - 1] !in p;
      assert ns == p + [ns[|ns| - 1]];
    }
  }

  /** Stripping a line of a file leaves no newline in it. */
  lemma TrimmedLineHasNoNewline(line: string)
    requires line != [] && '\n' !in line[..|line| - 1]
    ensures '\n' !in Trim(line)
  {
    var r := Trim(line);
    var lead := |line| - |TrimStart(line)|;
    forall j | 0 <= j < |r| ensures r[j] != '\n' {
      assert r[j] == line[lead + j];
      if lead + j < |line| - 1 {
        assert line[..|line| - 1][lead + j] == line[lead + j];
      } else {
        assert j == |r| - 1;
      }
    }
  }

  /** What `read_numbers_from_file` returns is a clean list. */
  lemma CleanedIsClean(content: string)
    ensures IsCleanList(Cleaned(content))
  {
    var lines := FileLines(content);
    FileLinesShape(content);
    var ts := Trimmed(lines);
    var r := KeepFirst(ts);
    KeepFirstDistinct(ts);
    forall i | 0 <= i < |r| ensures r[i] != "" && Trim(r[i]) == r[i] && '\n' !in r[i] {
      KeepFirstMembers(ts, r[i]);
      var k :| 0 <= k < |ts| && ts[k] == r[i];
      TrimIdempotent(lines[k]);
      TrimmedLineHasNoNewline(lines[k]);
    }
  }

  /** The content `write_numbers` gives a file: each number followed by a newline. */
  function Lines(ns: seq<string>): string
    decreases |ns|
  {
    if ns == [] then "" else ns[0] + "\n" + Lines(ns[1..])
  }

  lemma {:induction false} LinesAppend(a: seq<string>, b: seq<string>)
    ensures Lines(a + b) == Lines(a) + Lines(b)
    decreases |a|
  {
    if a == [] {
      assert a + b == b;
    } else {
      assert (a + b)[1..] == a[1..] + b;
      LinesAppend(a[1..], b);
    }
  }

  lemma LinesSnoc(a: seq<string>, n: string)
    ensures Lines(a + [n]) == Lines(a) + n + "\n"
  {
    LinesAppend(a, [n]);
  }

  lemma FileLinesStep(n: string, rest: string)
    requires '\n' !in n
    ensures FileLines(n + "\n" + rest) == [n + "\n"] + FileLines(rest)
  {
    var s := n + "\n" + rest;
    var k := LineEnd(s);
    assert s[|n|] == '\n';
    assert forall i :: 0 <= i < |n| ==> s[i] == n[i];
    assert k <= |n| + 1 by {
      assert forall i :: 0 <= i < k - 1 ==> s[..k - 1][i] == s[i];
    }
    assert k == |n| + 1;
    assert s[..k] == n + "\n";
    assert s[k..] == rest;
  }

  /** The lines of a written file are the numbers, one per line, in list order. */
  lemma {:induction false} FileLinesOfLines(ns: seq<string>)
    requires forall i :: 0 <= i < |ns| ==> '\n' !in ns[i]
    ensures |FileLines(Lines(ns))| == |ns|
    ensures forall i :: 0 <= i < |ns| ==> FileLines(Lines(ns))[i] == ns[i] + "\n"
    decreases |ns|
  {
    if ns != [] {
      FileLinesOfLines(ns[1..]);
      FileLinesStep(ns[0], Lines(ns[1..]));
    }
  }

  /** Reading back a file that `write_numbers` wrote from a clean list gives the list. */
  lemma ReadBackWritten(ns: seq<string>)
    requires IsCleanList(ns)
    ensures Cleaned(Lines(ns)) == ns
  {
    FileLinesOfLines(ns);
    var ts := Trimmed(FileLines(Lines(ns)));
    forall i | 0 <= i < |ns| ensures ts[i] == ns[i] {
      TrimLine(ns[i]);
    }
    assert ts == ns;
    KeepFirstOfClean(ns);
  }

  /** A number file on disk, identified with its text content. */
  class TextFile {
    var content: string

    constructor (initial: string)
      ensures content == initial
    {
      content := initial;
    }

    /** `write_numbers`: truncate the file, then write each number and a newline. */
    method WriteNumbers(numbers: seq<string>)
      modifies this
      ensures content == Lines(numbers)
    {
      content := "";
      for i := 0 to |numbers|
        invariant content == Lines(numbers[..i])
      {
        assert numbers[..i + 1] == numbers[..i] + [numbers[i]];
        LinesSnoc(numbers[..i], numbers[i]);
        content := content + numbers[i] + "\n";
      }
      assert numbers[..|numbers|] == numbers;
    }

    /** `append_number`: add the number and a newline at the end of the file. */
    method AppendNumber(number: string)
      modifies this
      ensures content == old(content) + Lines([number])
    {
      content := content + number + "\n";
    }
  }
}
