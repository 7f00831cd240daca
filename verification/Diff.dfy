/** The line diff behind `--check`: an LCS table, a walk over it, and the printed unified diff. */
module Diff {
  import opened Wrappers

  type Line = string

  datatype Op = Context(line: Line) | Add(line: Line) | Del(line: Line)

  // ---------------------------------------------------------------- Reading a script

  /** The lines a script keeps or deletes: what it says the old text was. */
  function OldSide(ops: seq<Op>): seq<Line> {
    if ops == [] then [] else (if ops[0].Add? then [] else [ops[0].line]) + OldSide(ops[1..])
  }

  /** The lines a script keeps or adds: what it says the new text is. */
  function NewSide(ops: seq<Op>): seq<Line> {
    if ops == [] then [] else (if ops[0].Del? then [] else [ops[0].line]) + NewSide(ops[1..])
  }

  function Kept(ops: seq<Op>): seq<Line> {
    if ops == [] then [] else (if ops[0].Context? then [ops[0].line] else []) + Kept(ops[1..])
  }

  /** The number of `+` and `-` lines. */
  function Changes(ops: seq<Op>): nat {
    if ops == [] then 0 else (if ops[0].Context? then 0 else 1) + Changes(ops[1..])
  }

  predicate Subsequence(c: seq<Line>, a: seq<Line>) {
    c == [] ||
    (a != [] && ((c[0] == a[0] && Subsequence(c[1..], a[1..])) || Subsequence(c, a[1..])))
  }

  predicate Common(c: seq<Line>, a: seq<Line>, b: seq<Line>) {
    Subsequence(c, a) && Subsequence(c, b)
  }

  // ---------------------------------------------------------------- The table

  function Lcs(a: seq<Line>, b: seq<Line>): nat
    decreases |a| + |b|
  {
    if a == [] || b == [] then 0
    else if a[0] == b[0] then Lcs(a[1..], b[1..]) + 1
    else Max(Lcs(a[1..], b), Lcs(a, b[1..]))
  }

  /** The walk, as a function: matching heads are kept, and a tie deletes before it adds. */
  function Script(a: seq<Line>, b: seq<Line>): seq<Op>
    decreases |a| + |b|
  {
    if a == [] && b == [] then []
    else if b == [] then [Del(a[0])] + Script(a[1..], b)
    else if a == [] then [Add(b[0])] + Script(a, b[1..])
    else if a[0] == b[0] then [Context(a[0])] + Script(a[1..], b[1..])
    else if Lcs(a[1..], b) >= Lcs(a, b[1..]) then [Del(a[0])] + Script(a[1..], b)
    else [Add(b[0])] + Script(a, b[1..])
  }

  lemma {:induction false} SubsequenceTails(c: seq<Line>, a: seq<Line>)
    requires c != [] && Subsequence(c, a)
    ensures a != [] && Subsequence(c[1..], a[1..])
  {
    if !(c[0] == a[0] && Subsequence(c[1..], a[1..])) {
      SubsequenceTails(c, a[1..]);
      SubsequenceExtends(c[1..], a[1..]);
    }
  }

  lemma SubsequenceExtends(c: seq<Line>, a: seq<Line>)
    requires a != [] && Subsequence(c, a[1..])
    ensures Subsequence(c, a)
  {
  }

  lemma SubsequenceCons(h: Line, c: seq<Line>, a: seq<Line>)
    requires Subsequence(c, a)
    ensures Subsequence([h] + c, [h] + a)
  {
    assert ([h] + c)[1..] == c && ([h] + a)[1..] == a;
  }

  /** No common subsequence is longer than the table says. */
  lemma {:induction false} LcsIsUpperBound(c: seq<Line>, a: seq<Line>, b: seq<Line>)
    requires Common(c, a, b)
    ensures |c| <= Lcs(a, b)
    decreases |a| + |b|
  {
    if c == [] {
    } else if a[0] == b[0] {
      SubsequenceTails(c, a);
      SubsequenceTails(c, b);
      LcsIsUpperBound(c[1..], a[1..], b[1..]);
    } else if c[0] != a[0] {
      LcsIsUpperBound(c, a[1..], b);
    } else {
      LcsIsUpperBound(c, a, b[1..]);
    }
  }

  /** Whatever script spells the two texts, its kept lines are common to both of them. */
  lemma {:induction false} KeptIsCommon(ops: seq<Op>)
    ensures Common(Kept(ops), OldSide(ops), NewSide(ops))
    ensures |OldSide(ops)| + |NewSide(ops)| == 2 * |Kept(ops)| + Changes(ops)
  {
    if ops != [] {
      KeptIsCommon(ops[1..]);
      var k, o, n := Kept(ops[1..]), OldSide(ops[1..]), NewSide(ops[1..]);
      var h := ops[0].line;
      match ops[0] {
        case Context(_) =>
          assert Kept(ops) == [h] + k && OldSide(ops) == [h] + o && NewSide(ops) == [h] + n;
          SubsequenceCons(h, k, o);
          SubsequenceCons(h, k, n);
        case Del(_) =>
          assert Kept(ops) == k && OldSide(ops) == [h] + o && NewSide(ops) == n;
          assert ([h] + o)[1..] == o;
          SubsequenceExtends(k, [h] + o);
        case Add(_) =>
          assert Kept(ops) == k && OldSide(ops) == o && NewSide(ops) == [h] + n;
          assert ([h] + n)[1..] == n;
          SubsequenceExtends(k, [h] + n);
      }
    }
  }

  lemma SidesOfCons(op: Op, rest: seq<Op>)
    ensures OldSide([op] + rest) == if op.Add? then OldSide(rest) else [op.line] + OldSide(rest)
    ensures NewSide([op] + rest) == if op.Del? then NewSide(rest) else [op.line] + NewSide(rest)
    ensures Kept([op] + rest) == if op.Context? then [op.line] + Kept(rest) else Kept(rest)
  {
    assert ([op] + rest)[1..] == rest;
  }

  /** The walk takes a line off one text, or the same line off both. */
  lemma ScriptStep(a: seq<Line>, b: seq<Line>) returns (op: Op, a': seq<Line>, b': seq<Line>)
    requires a != [] || b != []
    ensures Script(a, b) == [op] + Script(a', b') && |a'| + |b'| < |a| + |b|
    ensures a == if op.Add? then a' else [op.line] + a'
    ensures b == if op.Del? then b' else [op.line] + b'
  {
    if b == [] || (a != [] && a[0] != b[0] && Lcs(a[1..], b) >= Lcs(a, b[1..])) {
      op, a', b' := Del(a[0]), a[1..], b;
    } else if a == [] || a[0] != b[0] {
      op, a', b' := Add(b[0]), a, b[1..];
    } else {
      op, a', b' := Context(a[0]), a[1..], b[1..];
    }
  }

  /** The walk spells both texts. */
  lemma {:induction false} ScriptSpells(a: seq<Line>, b: seq<Line>)
    ensures OldSide(Script(a, b)) == a
    ensures NewSide(Script(a, b)) == b
    decreases |a| + |b|
  {
    if a != [] || b != [] {
      var op, a', b' := ScriptStep(a, b);
      ScriptSpells(a', b');
      SidesOfCons(op, Script(a', b'));
    }
  }

  /** The walk keeps exactly as many lines as the table promises. */
  lemma {:induction false} ScriptKeeps(a: seq<Line>, b: seq<Line>)
    ensures |Kept(Script(a, b))| == Lcs(a, b)
    decreases |a| + |b|
  {
    if a == [] && b == [] {
    } else if b == [] || (a != [] && a[0] != b[0] && Lcs(a[1..], b) >= Lcs(a, b[1..])) {
      ScriptKeeps(a[1..], b);
      SidesOfCons(Del(a[0]), Script(a[1..], b));
    } else if a == [] || a[0] != b[0] {
      ScriptKeeps(a, b[1..]);
      SidesOfCons(Add(b[0]), Script(a, b[1..]));
    } else {
      ScriptKeeps(a[1..], b[1..]);
      SidesOfCons(Context(a[0]), Script(a[1..], b[1..]));
    }
  }

  /** No script that turns `a` into `b` keeps more lines, or prints fewer changed ones. */
  lemma ScriptIsOptimal(a: seq<Line>, b: seq<Line>, other: seq<Op>)
    requires OldSide(other) == a && NewSide(other) == b
    ensures |Kept(other)| <= |Kept(Script(a, b))|
    ensures Changes(Script(a, b)) <= Changes(other)
  {
    ScriptSpells(a, b);
    ScriptKeeps(a, b);
    KeptIsCommon(other);
    KeptIsCommon(Script(a, b));
    LcsIsUpperBound(Kept(other), a, b);
  }

  // ---------------------------------------------------------------- lcsDiff

  /** The meaning of table cell `dp[i][j]`: the LCS length of the two suffixes. */
  function Cell(a: seq<Line>, b: seq<Line>, i: nat, j: nat): nat
    requires i <= |a| && j <= |b|
  {
    Lcs(a[i..], b[j..])
  }

  lemma CellUnfold(a: seq<Line>, b: seq<Line>, i: nat, j: nat)
    requires i <= |a| && j <= |b|
    ensures Cell(a, b, i, j) ==
            if i == |a| || j == |b| then 0
            else if a[i] == b[j] then Cell(a, b, i + 1, j + 1) + 1
            else Max(Cell(a, b, i + 1, j), Cell(a, b, i, j + 1))
  {
    if i < |a| && j < |b| {
      assert a[i..][1..] == a[i + 1..] && b[j..][1..] == b[j + 1..];
    }
  }

  ghost predicate RowFilled(a: seq<Line>, b: seq<Line>, dp: array2<nat>, i: nat)
    requires i <= |a| && dp.Length0 == |a| + 1 && dp.Length1 == |b| + 1
    reads dp
  {
    forall j :: 0 <= j <= |b| ==> dp[i, j] == Cell(a, b, i, j)
  }

  /** The inner loop: one row, right to left, from the row below it. */
  method FillRow(a: seq<Line>, b: seq<Line>, dp: array2<nat>, i: nat)
    requires i < |a| && dp.Length0 == |a| + 1 && dp.Length1 == |b| + 1
    requires RowFilled(a, b, dp, i + 1) && dp[i, |b|] == 0
    modifies dp
    ensures RowFilled(a, b, dp, i)
    ensures forall r, c :: 0 <= r <= |a| && r != i && 0 <= c <= |b| ==> dp[r, c] == old(dp[r, c])
  {
    CellUnfold(a, b, i, |b|);
    for j := |b| downto 0
      invariant forall r, c :: 0 <= r <= |a| && r != i && 0 <= c <= |b| ==> dp[r, c] == old(dp[r, c])
      invariant forall c :: j <= c <= |b| ==> dp[i, c] == Cell(a, b, i, c)
    {
      CellUnfold(a, b, i, j);
      assert dp[i + 1, j] == Cell(a, b, i + 1, j) && dp[i + 1, j + 1] == Cell(a, b, i + 1, j + 1);
      if a[i] == b[j] {
        dp[i, j] := dp[i + 1, j + 1] + 1;
      } else {
        dp[i, j] := if dp[i + 1, j] < dp[i, j + 1] then dp[i, j + 1] else dp[i + 1, j];
      }
    }
  }

  /** Fills the table from the bottom up: every cell is the LCS length of the two suffixes. */
  method FillTable(a: seq<Line>, b: seq<Line>) returns (dp: array2<nat>)
    ensures fresh(dp) && dp.Length0 == |a| + 1 && dp.Length1 == |b| + 1
    ensures forall i :: 0 <= i <= |a| ==> RowFilled(a, b, dp, i)
  {
    dp := new nat[|a| + 1, |b| + 1]((_, _) => 0);
    forall j | 0 <= j <= |b| ensures Cell(a, b, |a|, j) == 0 {
      CellUnfold(a, b, |a|, j);
    }
    for i := |a| downto 0
      invariant forall r :: i <= r <= |a| ==> RowFilled(a, b, dp, r)
      invariant forall r :: 0 <= r < i ==> dp[r, |b|] == 0
    {
      assert RowFilled(a, b, dp, i + 1);
      label Below:
      FillRow(a, b, dp, i);
      forall r | i + 1 <= r <= |a| ensures RowFilled(a, b, dp, r) {
        assert old@Below(RowFilled(a, b, dp, r));
        forall j | 0 <= j <= |b| ensures dp[r, j] == Cell(a, b, r, j) {
          assert dp[r, j] == old@Below(dp[r, j]);
        }
      }
    }
  }

  /** The script still to be emitted when the walk stands at `i`, `j`. */
  function Rest(a: seq<Line>, b: seq<Line>, i: nat, j: nat): seq<Op>
    requires i <= |a| && j <= |b|
  {
    Script(a[i..], b[j..])
  }

  lemma RestUnfold(a: seq<Line>, b: seq<Line>, i: nat, j: nat)
    requires i <= |a| && j <= |b|
    ensures Rest(a, b, i, j) ==
            if i == |a| && j == |b| then []
            else if j == |b| then [Del(a[i])] + Rest(a, b, i + 1, j)
            else if i == |a| then [Add(b[j])] + Rest(a, b, i, j + 1)
            else if a[i] == b[j] then [Context(a[i])] + Rest(a, b, i + 1, j + 1)
            else if Cell(a, b, i + 1, j) >= Cell(a, b, i, j + 1) then [Del(a[i])] + Rest(a, b, i + 1, j)
            else [Add(b[j])] + Rest(a, b, i, j + 1)
  {
    assert i < |a| ==> a[i..][1..] == a[i + 1..];
    assert j < |b| ==> b[j..][1..] == b[j + 1..];
  }

  /** One push of the walk: what is emitted and what is left still add up to the whole script. */
  lemma Pushed(out: seq<Op>, op: Op, rest: seq<Op>, whole: seq<Op>)
    requires out + ([op] + rest) == whole
    ensures (out + [op]) + rest == whole
  {
  }

  method Walk(a: seq<Line>, b: seq<Line>, dp: array2<nat>) returns (out: seq<Op>)
    requires dp.Length0 == |a| + 1 && dp.Length1 == |b| + 1
    requires forall i :: 0 <= i <= |a| ==> RowFilled(a, b, dp, i)
    ensures out == Script(a, b)
  {
    ghost var whole := Script(a, b);
    out := [];
    var i, j := 0, 0;
    assert a[0..] == a && b[0..] == b;
    while i < |a| && j < |b|
      invariant 0 <= i <= |a| && 0 <= j <= |b|
      invariant out + Rest(a, b, i, j) == whole
    {
      RestUnfold(a, b, i, j);
      assert RowFilled(a, b, dp, i) && RowFilled(a, b, dp, i + 1);
      if a[i] == b[j] {
        Pushed(out, Context(a[i]), Rest(a, b, i + 1, j + 1), whole);
        out := out + [Context(a[i])];
        i, j := i + 1, j + 1;
      } else if dp[i + 1, j] >= dp[i, j + 1] {
        Pushed(out, Del(a[i]), Rest(a, b, i + 1, j), whole);
        out := out + [Del(a[i])];
        i := i + 1;
      } else {
        Pushed(out, Add(b[j]), Rest(a, b, i, j + 1), whole);
        out := out + [Add(b[j])];
        j := j + 1;
      }
    }
    out := Flush(a, b, i, j, out);
  }

  /** The two trailing loops: at most one of them runs. */
  method Flush(a: seq<Line>, b: seq<Line>, i0: nat, j0: nat, emitted: seq<Op>) returns (out: seq<Op>)
    requires i0 <= |a| && j0 <= |b| && (i0 == |a| || j0 == |b|)
    ensures out == emitted + Rest(a, b, i0, j0)
  {
    ghost var whole := emitted + Rest(a, b, i0, j0);
    var i, j := i0, j0;
    out := emitted;
    while i < |a|
      invariant i0 <= i <= |a| && j == j0 && (i == |a| || j == |b|)
      invariant out + Rest(a, b, i, j) == whole
    {
      RestUnfold(a, b, i, j);
      Pushed(out, Del(a[i]), Rest(a, b, i + 1, j), whole);
      out := out + [Del(a[i])];
      i := i + 1;
    }
    while j < |b|
      invariant i == |a| && j0 <= j <= |b|
      invariant out + Rest(a, b, i, j) == whole
    {
      RestUnfold(a, b, i, j);
      Pushed(out, Add(b[j]), Rest(a, b, i, j + 1), whole);
      out := out + [Add(b[j])];
      j := j + 1;
    }
    RestUnfold(a, b, i, j);
    assert out == out + [];
  }

  /**
   * The diff. Its kept and deleted lines spell `a`, its kept and added lines spell `b`, and its
   * kept lines are a longest common subsequence.
   */
  method LcsDiff(a: seq<Line>, b: seq<Line>) returns (out: seq<Op>)
    ensures out == Script(a, b)
    ensures OldSide(out) == a && NewSide(out) == b
    ensures Common(Kept(out), a, b)
    ensures forall c :: Common(c, a, b) ==> |c| <= |Kept(out)|
  {
    var dp := FillTable(a, b);
    out := Walk(a, b, dp);
    ScriptSpells(a, b);
    ScriptKeeps(a, b);
    KeptIsCommon(out);
    forall c | Common(c, a, b) ensures |c| <= |Kept(out)| {
      LcsIsUpperBound(c, a, b);
    }
  }

  // ---------------------------------------------------------------- unifiedDiff

  /** `text.split('\n')`: always at least one line. */
  function Split(text: string): (lines: seq<Line>)
    ensures lines != []
  {
    if text == "" then [""]
    else
      var rest := Split(text[1..]);
      if text[0] == '\n' then [""] + rest else [[text[0]] + rest[0]] + rest[1..]
  }

  /** `lines.join('\n')`. */
  function Join(lines: seq<Line>): string {
    if lines == [] then ""
    else if |lines| == 1 then lines[0]
    else lines[0] + "\n" + Join(lines[1..])
  }

  lemma JoinFirst(first: Line, rest: seq<Line>)
    requires rest != []
    ensures Join([first] + rest) == first + "\n" + Join(rest)
  {
    assert ([first] + rest)[1..] == rest;
  }

  lemma JoinLonger(c: char, first: Line, rest: seq<Line>)
    ensures Join([[c] + first] + rest) == [c] + Join([first] + rest)
  {
    if rest == [] {
      assert [[c] + first] + rest == [[c] + first] && [first] + rest == [first];
    } else {
      JoinFirst(first, rest);
      JoinFirst([c] + first, rest);
      Regroup([c], first, "\n" + Join(rest));
    }
  }

  lemma Regroup(a: string, b: string, c: string)
    ensures (a + b) + c == a + (b + c)
  {
  }

  lemma {:induction false} SplitJoins(text: string)
    ensures Join(Split(text)) == text
  {
    if text != "" {
      var rest := Split(text[1..]);
      SplitJoins(text[1..]);
      if text[0] == '\n' {
        JoinFirst("", rest);
      } else {
        JoinLonger(text[0], rest[0], rest[1..]);
        assert [rest[0]] + rest[1..] == rest;
      }
      assert text == [text[0]] + text[1..];
    }
  }

  lemma {:induction false} JoinOfSplit(text: string)
    ensures Join(Split(text)) == text
    ensures forall l :: l in Split(text) ==> '\n' !in l
  {
    SplitJoins(text);
    if text != "" {
      JoinOfSplit(text[1..]);
    }
  }

  lemma {:induction false} SplitOfLine(line: Line)
    requires '\n' !in line
    ensures Split(line) == [line]
  {
    if line != "" {
      SplitOfLine(line[1..]);
      assert line == [line[0]] + line[1..];
    }
  }

  lemma {:induction false} SplitOfFirst(line: Line, rest: string)
    requires '\n' !in line
    ensures Split(line + "\n" + rest) == [line] + Split(rest)
  {
    var text := line + "\n" + rest;
    if line == "" {
      assert text[1..] == rest;
    } else {
      SplitOfFirst(line[1..], rest);
      assert text[1..] == line[1..] + "\n" + rest;
      assert text[0] == line[0] && line == [line[0]] + line[1..];
    }
  }

  lemma {:induction false} SplitOfJoin(lines: seq<Line>)
    requires lines != [] && forall l :: l in lines ==> '\n' !in l
    ensures Split(Join(lines)) == lines
  {
    if |lines| == 1 {
      SplitOfLine(lines[0]);
    } else {
      SplitOfJoin(lines[1..]);
      SplitOfFirst(lines[0], Join(lines[1..]));
    }
  }

  function Printed(op: Op): Line {
    match op
    case Context(l) => " " + l
    case Add(l) => "+" + l
    case Del(l) => "-" + l
  }

  function PrintedAll(ops: seq<Op>): seq<Line> {
    if ops == [] then [] else [Printed(ops[0])] + PrintedAll(ops[1..])
  }

  /** Reads one side back from printed lines: `drop` is the marker of the other side. */
  function ReadSide(lines: seq<Line>, drop: char): seq<Line> {
    if lines == [] then []
    else (if lines[0] == "" || lines[0][0] == drop then [] else [lines[0][1..]]) + ReadSide(lines[1..], drop)
  }

  /** What a patch tool reads from a unified diff as the old (`'+'`) or new (`'-'`) text. */
  function Recover(patch: string, drop: char): string {
    var lines := Split(patch);
    if |lines| < 2 then "" else Join(ReadSide(lines[2..], drop))
  }

  lemma {:induction false} ReadSideOfPrinted(ops: seq<Op>)
    ensures ReadSide(PrintedAll(ops), '+') == OldSide(ops)
    ensures ReadSide(PrintedAll(ops), '-') == NewSide(ops)
  {
    if ops != [] {
      ReadSideOfPrinted(ops[1..]);
      assert PrintedAll(ops)[1..] == PrintedAll(ops[1..]);
      assert Printed(ops[0])[1..] == ops[0].line;
    }
  }

  lemma {:induction false} PrintedHasNoBreaks(ops: seq<Op>)
    requires forall l :: l in OldSide(ops) || l in NewSide(ops) ==> '\n' !in l
    ensures forall l :: l in PrintedAll(ops) ==> '\n' !in l
  {
    if ops != [] {
      assert ops[0].line in OldSide(ops) || ops[0].line in NewSide(ops);
      assert forall l :: l in OldSide(ops[1..]) ==> l in OldSide(ops);
      assert forall l :: l in NewSide(ops[1..]) ==> l in NewSide(ops);
      PrintedHasNoBreaks(ops[1..]);
    }
  }

  lemma {:induction false} PrintedAllAppend(ops: seq<Op>, op: Op)
    ensures PrintedAll(ops + [op]) == PrintedAll(ops) + [Printed(op)]
  {
    if ops != [] {
      PrintedAllAppend(ops[1..], op);
      assert (ops + [op])[1..] == ops[1..] + [op];
    } else {
      assert (ops + [op])[1..] == [];
    }
  }

  /** A printed script under two header lines gives both of its sides back. */
  lemma PrintedIsReadBack(first: Line, second: Line, ops: seq<Op>)
    requires '\n' !in first && '\n' !in second
    requires forall l :: l in OldSide(ops) || l in NewSide(ops) ==> '\n' !in l
    ensures var patch := Join([first, second] + PrintedAll(ops));
      Recover(patch, '+') == Join(OldSide(ops)) && Recover(patch, '-') == Join(NewSide(ops))
  {
    var lines := [first, second] + PrintedAll(ops);
    assert Split(Join(lines)) == lines by {
      PrintedHasNoBreaks(ops);
      SplitOfJoin(lines);
    }
    assert lines[2..] == PrintedAll(ops);
    ReadSideOfPrinted(ops);
  }

  /** The printed diff loses nothing: both texts are read back from it. */
  lemma PatchRecoversBoth(oldText: string, newText: string, oldName: string, newName: string)
    requires '\n' !in oldName && '\n' !in newName
    ensures
      var patch := Join(["--- " + oldName, "+++ " + newName] + PrintedAll(Script(Split(oldText), Split(newText))));
      Recover(patch, '+') == oldText && Recover(patch, '-') == newText
  {
    JoinOfSplit(oldText);
    JoinOfSplit(newText);
    ScriptSpells(Split(oldText), Split(newText));
    PrintedIsReadBack("--- " + oldName, "+++ " + newName, Script(Split(oldText), Split(newText)));
  }

  method PrintAll(ops: seq<Op>, head: seq<Line>) returns (out: seq<Line>)
    ensures out == head + PrintedAll(ops)
  {
    out := head;
    for k := 0 to |ops|
      invariant out == head + PrintedAll(ops[..k])
    {
      PrintedAllAppend(ops[..k], ops[k]);
      assert ops[..k + 1] == ops[..k] + [ops[k]];
      match ops[k] {
        case Context(l) => out := out + [" " + l];
        case Add(l) => out := out + ["+" + l];
        case Del(l) => out := out + ["-" + l];
      }
    }
    assert ops[..|ops|] == ops;
  }

  method UnifiedDiff(oldText: string, newText: string, oldName: string, newName: string) returns (patch: string)
    ensures patch == "" <==> oldText == newText
    ensures oldText != newText && '\n' !in oldName && '\n' !in newName ==>
              Recover(patch, '+') == oldText && Recover(patch, '-') == newText
    ensures oldText != newText ==>
              patch == Join(["--- " + oldName, "+++ " + newName] + PrintedAll(Script(Split(oldText), Split(newText))))
  {
    if oldText == newText {
      return "";
    }
    var ops := LcsDiff(Split(oldText), Split(newText));
    var out := PrintAll(ops, ["--- " + oldName, "+++ " + newName]);
    patch := Join(out);
    if '\n' !in oldName && '\n' !in newName {
      PatchRecoversBoth(oldText, newText, oldName, newName);
    }
  }
}
