/**
 * The content key of a target image's dependency layer: the bytes fed to the digest, what they
 * do not depend on, and exactly when two different inputs can share them.
 */
module ImageKey {
  import opened Wrappers
  import opened Sorting
  import opened Concat

  const NUL := '\0'
  const MANIFEST := "manifest"

  /** A matched manifest file: its path relative to the clone, and its text. */
  datatype File = File(path: string, contents: string)

  // ---------------------------------------------------------------- resolving the input

  /** The order `Array.prototype.sort` puts strings in. */
  predicate LexLeq(a: string, b: string)
    decreases a
  {
    a == "" || (b != "" && (a[0] < b[0] || (a[0] == b[0] && LexLeq(a[1..], b[1..]))))
  }

  /** The files one glob matched, sorted by path. */
  function Resolve(glob: seq<string>, read: string -> string): seq<File> {
    var paths := Sort(glob, LexLeq);
    seq(|paths|, i requires 0 <= i < |paths| => File(paths[i], read(paths[i])))
  }

  /** The text folded into the key for one manifest: its files' paths and contents. */
  function Contents(files: seq<File>): string
    decreases files
  {
    if files == [] then ""
    else if |files| == 1 then files[0].path + "\0" + files[0].contents
    else files[0].path + "\0" + files[0].contents + "\n" + Contents(files[1..])
  }

  function AllContents(files: seq<seq<File>>): (r: seq<string>)
    ensures |r| == |files| && forall i | 0 <= i < |r| :: r[i] == Contents(files[i])
  {
    seq(|files|, i requires 0 <= i < |files| => Contents(files[i]))
  }

  // ---------------------------------------------------------------- the preimage

  /** One manifest's share of the preimage; missing contents count as empty. */
  function Share(pattern: string, contents: string): string {
    "\0manifest\0" + pattern + "\0" + contents
  }

  function Shares(patterns: seq<string>, contents: seq<string>): string
    decreases patterns
  {
    if patterns == [] then ""
    else Share(patterns[0], if contents == [] then "" else contents[0])
         + Shares(patterns[1..], if contents == [] then [] else contents[1..])
  }

  function Preimage(dockerfile: string, patterns: seq<string>, contents: seq<string>): string {
    "key-version:2\0dockerfile\0" + dockerfile + Shares(patterns, contents)
  }

  lemma {:induction false} SharesStep(patterns: seq<string>, contents: seq<string>, i: nat)
    requires i < |patterns|
    ensures Shares(patterns[..i + 1], contents) ==
            Shares(patterns[..i], contents) + Share(patterns[i], if i < |contents| then contents[i] else "")
    decreases i
  {
    var first := Share(patterns[0], if contents == [] then "" else contents[0]);
    var rest := if contents == [] then [] else contents[1..];
    assert patterns[..i + 1][1..] == patterns[1..][..i];
    if i > 0 {
      SharesStep(patterns[1..], rest, i - 1);
      assert patterns[..i][1..] == patterns[1..][..i - 1];
      Grouped(first, Shares(patterns[1..][..i - 1], rest), Share(patterns[i], if i < |contents| then contents[i] else ""));
    }
  }

  /** The updates the source feeds the digest, in order. */
  method ComputeDepsCacheKey(dockerfile: string, patterns: seq<string>, contents: seq<string>) returns (hashed: string)
    ensures hashed == Preimage(dockerfile, patterns, contents)
  {
    hashed := "key-version:2\0";
    hashed := hashed + "dockerfile\0";
    hashed := hashed + dockerfile;
    ghost var front := hashed;
    ghost var done := "";
    for i := 0 to |patterns|
      invariant done == Shares(patterns[..i], contents) && hashed == front + done
    {
      SharesStep(patterns, contents, i);
      var head, body := "\0manifest\0" + patterns[i] + "\0", if i < |contents| then contents[i] else "";
      Grouped(front, done, head);
      Grouped(front, done + head, body);
      Grouped(done, head, body);
      hashed := hashed + head;
      hashed := hashed + body;
      done := Shares(patterns[..i + 1], contents);
    }
    assert patterns[..|patterns|] == patterns;
  }

  // ---------------------------------------------------------------- glob order does not matter

  lemma {:induction false} LexTotal(a: string, b: string)
    ensures LexLeq(a, b) || LexLeq(b, a)
    ensures LexLeq(a, b) && LexLeq(b, a) ==> a == b
    decreases a
  {
    if a != "" && b != "" && a[0] == b[0] {
      LexTotal(a[1..], b[1..]);
      assert a == [a[0]] + a[1..] && b == [b[0]] + b[1..];
    }
  }

  lemma {:induction false} LexTransitive(a: string, b: string, c: string)
    requires LexLeq(a, b) && LexLeq(b, c)
    ensures LexLeq(a, c)
    decreases a
  {
    if a != "" && a[0] == b[0] == c[0] {
      LexTransitive(a[1..], b[1..], c[1..]);
    }
  }

  lemma LexOrder()
    ensures TotalPreorder(LexLeq)
  {
    forall a, b
      ensures LexLeq(a, b) || LexLeq(b, a)
    {
      LexTotal(a, b);
    }
    forall a, b, c | LexLeq(a, b) && LexLeq(b, c)
      ensures LexLeq(a, c)
    {
      LexTransitive(a, b, c);
    }
  }

  lemma LexTieFree(paths: seq<string>)
    ensures TieFree(paths, LexLeq)
  {
    forall a, b | a in paths && b in paths && LexLeq(a, b) && LexLeq(b, a)
      ensures a == b
    {
      LexTotal(a, b);
    }
  }

  /** Whatever order a glob returns its matches in, the key's input is the same, and holds each match once. */
  lemma GlobOrderIsIrrelevant(glob: seq<string>, glob': seq<string>, read: string -> string)
    requires multiset(glob) == multiset(glob')
    ensures Resolve(glob, read) == Resolve(glob', read)
  {
    LexOrder();
    LexTieFree(glob);
    SortCanonical(glob, glob', LexLeq);
  }

  // ---------------------------------------------------------------- the preimage as NUL-led tokens

  function Tailed(tokens: seq<string>): string
    decreases tokens
  {
    if tokens == [] then "" else [NUL] + tokens[0] + Tailed(tokens[1..])
  }

  predicate NulFree(s: string) { NUL !in s }

  predicate AllNulFree(ss: seq<string>) { forall s | s in ss :: NulFree(s) }

  /** Where two NUL-free heads are followed by nothing or by a NUL, equal texts have equal heads. */
  lemma HeadIsUnique(a: string, x: string, b: string, y: string)
    requires NulFree(a) && NulFree(b) && (x == "" || x[0] == NUL) && (y == "" || y[0] == NUL)
    requires a + x == b + y
    ensures a == b && x == y
  {
    var t := a + x;
    assert forall k | 0 <= k < |a| :: t[k] == a[k];
    assert forall k | 0 <= k < |b| :: (b + y)[k] == b[k];
    assert x != "" ==> t[|a|] == NUL;
    assert y != "" ==> (b + y)[|b|] == NUL;
    assert t[..|a|] == a && (b + y)[..|b|] == b;
    assert t[|a|..] == x && (b + y)[|b|..] == y;
  }

  lemma {:induction false} TailedIsUnique(a: seq<string>, b: seq<string>)
    requires AllNulFree(a) && AllNulFree(b) && Tailed(a) == Tailed(b)
    ensures a == b
    decreases a
  {
    if a == [] || b == [] {
      assert Tailed(a) == "" && Tailed(b) == "";
    } else {
      var x, y := Tailed(a[1..]), Tailed(b[1..]);
      assert Tailed(a)[1..] == a[0] + x && Tailed(b)[1..] == b[0] + y;
      HeadIsUnique(a[0], x, b[0], y);
      TailedIsUnique(a[1..], b[1..]);
      assert a == [a[0]] + a[1..] && b == [b[0]] + b[1..];
    }
  }

  lemma {:induction false} TailedConcat(a: seq<string>, b: seq<string>)
    ensures Tailed(a + b) == Tailed(a) + Tailed(b)
    decreases a
  {
    if a == [] {
      assert a + b == b;
    } else {
      assert (a + b)[1..] == a[1..] + b;
      TailedConcat(a[1..], b);
      Grouped([NUL] + a[0], Tailed(a[1..]), Tailed(b));
    }
  }

  /** What stands between the NULs after the first path: a content, and the next path on a new line. */
  function Rest(files: seq<File>): (r: seq<string>)
    requires files != []
    ensures |r| == |files|
    decreases files
  {
    if |files| == 1 then [files[0].contents]
    else [files[0].contents + "\n" + files[1].path] + Rest(files[1..])
  }

  function Cells(files: seq<File>): (r: seq<string>)
    ensures |r| == |files| + 1
  {
    if files == [] then [""] else [files[0].path] + Rest(files)
  }

  function Tokens(patterns: seq<string>, files: seq<seq<File>>): seq<string>
    requires |patterns| == |files|
    decreases patterns
  {
    if patterns == [] then []
    else [MANIFEST, patterns[0]] + Cells(files[0]) + Tokens(patterns[1..], files[1..])
  }

  lemma {:induction false} ContentsAsCells(files: seq<File>)
    requires files != []
    ensures Contents(files) == files[0].path + Tailed(Rest(files))
    decreases files
  {
    if |files| > 1 {
      var c, p, more := files[0].contents, files[1].path, Tailed(Rest(files[1..]));
      ContentsAsCells(files[1..]);
      assert Rest(files)[1..] == Rest(files[1..]);
      FourParts(files[0].path, c, p, more);
    } else {
      assert Tailed([]) == "" && [files[0].contents][1..] == [];
      assert [NUL] + files[0].contents + "" == "\0" + files[0].contents;
    }
  }

  lemma FourParts(a: string, c: string, p: string, more: string)
    ensures a + "\0" + c + "\n" + (p + more) == a + ([NUL] + (c + "\n" + p) + more)
  {
  }

  lemma ShareAsTokens(pattern: string, files: seq<File>)
    ensures Share(pattern, Contents(files)) == Tailed([MANIFEST, pattern] + Cells(files))
  {
    CellsTailed(files);
    TailedConcat([MANIFEST, pattern], Cells(files));
    HeadTailed(pattern);
    Grouped("\0manifest\0" + pattern, "\0", Contents(files));
  }

  lemma HeadTailed(pattern: string)
    ensures Tailed([MANIFEST, pattern]) == "\0manifest\0" + pattern
  {
    assert [MANIFEST, pattern][1..] == [pattern] && [pattern][1..] == [];
    assert Tailed([pattern]) == [NUL] + pattern;
  }

  lemma CellsTailed(files: seq<File>)
    ensures Tailed(Cells(files)) == "\0" + Contents(files)
  {
    if files == [] {
      assert Cells(files)[1..] == [] && Tailed([]) == "";
    } else {
      ContentsAsCells(files);
      assert Cells(files)[1..] == Rest(files);
      Grouped([NUL], files[0].path, Tailed(Rest(files)));
    }
  }

  lemma {:induction false} SharesAsTokens(patterns: seq<string>, files: seq<seq<File>>)
    requires |patterns| == |files|
    ensures Shares(patterns, AllContents(files)) == Tailed(Tokens(patterns, files))
    decreases patterns
  {
    if patterns != [] {
      assert AllContents(files)[1..] == AllContents(files[1..]);
      SharesAsTokens(patterns[1..], files[1..]);
      ShareAsTokens(patterns[0], files[0]);
      TailedConcat([MANIFEST, patterns[0]] + Cells(files[0]), Tokens(patterns[1..], files[1..]));
    }
  }

  // ---------------------------------------------------------------- reading the tokens back

  predicate OneLine(path: string) { '\n' !in path }

  /** A content followed by a one-line path on a new line: the last newline separates them. */
  lemma LastNewlineSeparates(c: string, p: string, c': string, p': string)
    requires OneLine(p) && OneLine(p') && c + "\n" + p == c' + "\n" + p'
    ensures c == c' && p == p'
  {
    var s, s' := c + "\n" + p, c' + "\n" + p';
    assert s[|c|] == '\n' && forall k | |c| < k < |s| :: s[k] == p[k - |c| - 1];
    assert s'[|c'|] == '\n' && forall k | |c'| < k < |s'| :: s'[k] == p'[k - |c'| - 1];
    assert s[..|c|] == c && s'[..|c'|] == c';
    assert s[|c| + 1..] == p && s'[|c'| + 1..] == p';
  }

  predicate OneLinePaths(files: seq<File>) { forall f | f in files :: OneLine(f.path) }

  lemma {:induction false} RestIsUnique(a: seq<File>, b: seq<File>)
    requires |a| == |b| > 0 && a[0].path == b[0].path && OneLinePaths(a) && OneLinePaths(b)
    requires Rest(a) == Rest(b)
    ensures a == b
    decreases a
  {
    if |a| > 1 {
      assert a[1] in a && b[1] in b;
      assert Rest(a)[0] == a[0].contents + "\n" + a[1].path && Rest(b)[0] == b[0].contents + "\n" + b[1].path;
      LastNewlineSeparates(a[0].contents, a[1].path, b[0].contents, b[1].path);
      assert Rest(a)[1..] == Rest(a[1..]) && Rest(b)[1..] == Rest(b[1..]);
      RestIsUnique(a[1..], b[1..]);
    }
    assert a == [a[0]] + a[1..] && b == [b[0]] + b[1..];
  }

  lemma CellsAreUnique(a: seq<File>, b: seq<File>)
    requires OneLinePaths(a) && OneLinePaths(b) && Cells(a) == Cells(b)
    ensures a == b
  {
    assert |Cells(a)| == |Cells(b)|;
    if a != [] {
      assert Cells(a)[0] == a[0].path && Cells(b)[0] == b[0].path;
      assert Cells(a)[1..] == Rest(a) && Cells(b)[1..] == Rest(b);
      RestIsUnique(a, b);
    }
  }

  /** Every cell but the first and the last holds a newline. */
  lemma {:induction false} MiddleCell(files: seq<File>, i: nat)
    requires 0 < i < |files|
    ensures '\n' in Cells(files)[i]
    decreases i
  {
    var c, p := files[0].contents, files[1].path;
    if i == 1 {
      assert Cells(files)[1] == c + "\n" + p;
      assert (c + "\n" + p)[|c|] == '\n';
    } else {
      MiddleCell(files[1..], i - 1);
      assert Cells(files)[i] == Rest(files)[i - 1] == Rest(files[1..])[i - 2] == Cells(files[1..])[i - 1];
    }
  }

  lemma MarkerIsNotInside(files: seq<File>, cells: seq<string>)
    requires cells == Cells(files)
    ensures forall i | 0 < i < |cells| - 1 :: cells[i] != MANIFEST
  {
    forall i | 0 < i < |cells| - 1
      ensures cells[i] != MANIFEST
    {
      MiddleCell(files, i);
    }
  }

  /** If one run of cells is longer than another, the share after the shorter reads `mark` twice. */
  lemma LongerRunReadsMark(x: seq<string>, u: seq<string>, y: seq<string>, v: seq<string>, mark: string)
    requires x + u == y + v && 0 < |x| < |y|
    requires u != [] ==> |u| >= 2 && u[0] == mark
    requires v != [] ==> v[0] == mark
    requires forall i | 0 < i < |y| - 1 :: y[i] != mark
    ensures u != [] && u[1] == mark
  {
    var t := x + u;
    assert |t| == |y| + |v|;
    assert t[|x|] == y[|x|];
    assert u[0] == t[|x|];
    assert |x| == |y| - 1;
    assert t[|y|] == v[0] && t[|y|] == u[1];
  }

  lemma TokensHead(patterns: seq<string>, files: seq<seq<File>>)
    requires |patterns| == |files|
    ensures patterns == [] <==> Tokens(patterns, files) == []
    ensures var t := Tokens(patterns, files);
            patterns != [] ==> |t| >= 2 && t[0] == MANIFEST && t[1] == patterns[0]
  {
  }

  /** When one manifest's cells run into the next share, that share's pattern reads as the marker. */
  lemma Overrun(a: seq<File>, b: seq<File>, u: seq<string>, v: seq<string>)
    requires |a| < |b| && Cells(a) + u == Cells(b) + v
    requires u != [] ==> |u| >= 2 && u[0] == MANIFEST
    requires v != [] ==> v[0] == MANIFEST
    ensures u != [] && u[1] == MANIFEST
  {
    MarkerIsNotInside(b, Cells(b));
    LongerRunReadsMark(Cells(a), u, Cells(b), v, MANIFEST);
  }

  /** What follows a run of cells: nothing, or a share whose pattern is not the marker. */
  ghost predicate PlainShares(tokens: seq<string>) {
    tokens != [] ==> |tokens| >= 2 && tokens[0] == MANIFEST && tokens[1] != MANIFEST
  }

  /** Where no later pattern is the marker, two runs of cells of equal texts are equally long. */
  lemma SameCells(a: seq<File>, b: seq<File>, u: seq<string>, v: seq<string>)
    requires PlainShares(u) && PlainShares(v) && OneLinePaths(a) && OneLinePaths(b)
    requires Cells(a) + u == Cells(b) + v
    ensures a == b && u == v
  {
    if |a| < |b| {
      Overrun(a, b, u, v);
    } else if |b| < |a| {
      Overrun(b, a, v, u);
    }
    CutAt(Cells(a), u, Cells(b), v);
    CellsAreUnique(a, b);
  }

  ghost predicate NoMarkerAfterFirst(patterns: seq<string>) {
    forall i | 1 <= i < |patterns| :: patterns[i] != MANIFEST
  }

  lemma TailIsPlain(patterns: seq<string>, files: seq<seq<File>>)
    requires |patterns| == |files| && patterns != [] && NoMarkerAfterFirst(patterns)
    ensures PlainShares(Tokens(patterns[1..], files[1..])) && NoMarkerAfterFirst(patterns[1..])
  {
    TokensHead(patterns[1..], files[1..]);
  }

  lemma {:induction false} TokensAreUnique(p: seq<string>, a: seq<seq<File>>, q: seq<string>, b: seq<seq<File>>)
    requires |p| == |a| && |q| == |b| && NoMarkerAfterFirst(p) && NoMarkerAfterFirst(q)
    requires forall fs | fs in a || fs in b :: OneLinePaths(fs)
    requires Tokens(p, a) == Tokens(q, b)
    ensures p == q && a == b
    decreases p
  {
    TokensHead(p, a);
    TokensHead(q, b);
    if p != [] {
      var mark, more, more' := [MANIFEST, p[0]], Tokens(p[1..], a[1..]), Tokens(q[1..], b[1..]);
      assert a[0] in a && b[0] in b;
      Grouped(mark, Cells(a[0]), more);
      Grouped([MANIFEST, q[0]], Cells(b[0]), more');
      CutAt(mark, Cells(a[0]) + more, [MANIFEST, q[0]], Cells(b[0]) + more');
      TailIsPlain(p, a);
      TailIsPlain(q, b);
      SameCells(a[0], b[0], more, more');
      TokensAreUnique(p[1..], a[1..], q[1..], b[1..]);
      assert p == [p[0]] + p[1..] && q == [q[0]] + q[1..];
      assert a == [a[0]] + a[1..] && b == [b[0]] + b[1..];
    }
  }

  // ---------------------------------------------------------------- exactly when the key separates inputs

  /** One manifest's files as resolving leaves them: sorted, no NUL in a text, no newline in a path. */
  ghost predicate Readable(files: seq<File>) {
    && (forall f | f in files :: NulFree(f.path) && NulFree(f.contents) && OneLine(f.path))
    && (forall i, j | 0 <= i < j < |files| :: LexLeq(files[i].path, files[j].path))
  }

  ghost predicate Input(patterns: seq<string>, dockerfile: string, files: seq<seq<File>>) {
    |files| == |patterns| && NulFree(dockerfile) && forall fs | fs in files :: Readable(fs)
  }

  /** Distinct inputs for these manifests always have distinct preimages. */
  ghost predicate Separates(patterns: seq<string>) {
    forall d, files, d', files' |
      && Input(patterns, d, files) && Input(patterns, d', files')
      && Preimage(d, patterns, AllContents(files)) == Preimage(d', patterns, AllContents(files')) ::
      d == d' && files == files'
  }

  /** Resolving NUL-free files with one-line paths yields such a list, with every match and its text. */
  lemma ResolveIsReadable(glob: seq<string>, read: string -> string)
    requires forall p | p in glob :: NulFree(p) && OneLine(p) && NulFree(read(p))
    ensures Readable(Resolve(glob, read)) && |Resolve(glob, read)| == |glob|
    ensures forall p | p in glob :: File(p, read(p)) in Resolve(glob, read)
  {
    LexOrder();
    SortFacts(glob, LexLeq);
    var paths, files := Sort(glob, LexLeq), Resolve(glob, read);
    forall i | 0 <= i < |files|
      ensures files[i] == File(paths[i], read(paths[i])) && paths[i] in glob
    {
      assert paths[i] in paths;
    }
    forall p | p in glob
      ensures File(p, read(p)) in files
    {
      var i :| 0 <= i < |paths| && paths[i] == p;
      assert files[i] == File(p, read(p));
    }
  }

  lemma {:induction false} RestIsNulFree(files: seq<File>)
    requires files != [] && Readable(files)
    ensures AllNulFree(Rest(files))
    decreases files
  {
    assert files[0] in files;
    if |files| > 1 {
      assert files[1] in files;
      RestIsNulFree(files[1..]);
    }
  }

  lemma {:induction false} TokensAreNulFree(patterns: seq<string>, files: seq<seq<File>>)
    requires |patterns| == |files| && AllNulFree(patterns) && forall fs | fs in files :: Readable(fs)
    ensures AllNulFree(Tokens(patterns, files))
    decreases patterns
  {
    if patterns != [] {
      assert files[0] in files && patterns[0] in patterns;
      if files[0] != [] {
        assert files[0][0] in files[0];
        RestIsNulFree(files[0]);
      }
      assert AllNulFree(Cells(files[0]));
      TokensAreNulFree(patterns[1..], files[1..]);
    }
  }

  lemma PreimageAsTokens(dockerfile: string, patterns: seq<string>, files: seq<seq<File>>)
    requires |patterns| == |files|
    ensures Preimage(dockerfile, patterns, AllContents(files)) ==
            "key-version:2" + Tailed(["dockerfile"] + [dockerfile] + Tokens(patterns, files))
  {
    SharesAsTokens(patterns, files);
    assert "key-version:2\0dockerfile\0" == "key-version:2" + [NUL] + "dockerfile" + [NUL];
    WithHeader("key-version:2", "dockerfile", dockerfile, Tokens(patterns, files));
  }

  lemma WithHeader(version: string, name: string, dockerfile: string, tokens: seq<string>)
    ensures version + [NUL] + name + [NUL] + dockerfile + Tailed(tokens) ==
            version + Tailed([name] + [dockerfile] + tokens)
  {
    TailedConcat([name] + [dockerfile], tokens);
    TailedConcat([name], [dockerfile]);
    TailedOne(name);
    TailedOne(dockerfile);
    Header(version, name, dockerfile, Tailed(tokens));
  }

  lemma TailedOne(t: string)
    ensures Tailed([t]) == [NUL] + t
  {
    assert [t][1..] == [] && Tailed([]) == "" && [NUL] + t + "" == [NUL] + t;
  }

  lemma Header(version: string, name: string, dockerfile: string, rest: string)
    ensures version + [NUL] + name + [NUL] + dockerfile + rest == version + ([NUL] + name + ([NUL] + dockerfile) + rest)
  {
  }

  /**
   * For manifests none of which, past the first, is spelled like the marker, equal preimages come
   * from equal Dockerfiles, equal manifest lists, and equal path and content lists for every one.
   */
  lemma PreimageSeparates(patterns: seq<string>, d: string, files: seq<seq<File>>,
                          patterns': seq<string>, d': string, files': seq<seq<File>>)
    requires AllNulFree(patterns) && NoMarkerAfterFirst(patterns) && Input(patterns, d, files)
    requires AllNulFree(patterns') && NoMarkerAfterFirst(patterns') && Input(patterns', d', files')
    requires Preimage(d, patterns, AllContents(files)) == Preimage(d', patterns', AllContents(files'))
    ensures d == d' && patterns == patterns' && files == files'
  {
    var t, t' := Tokens(patterns, files), Tokens(patterns', files');
    var head, head' := ["dockerfile"] + [d], ["dockerfile"] + [d'];
    PreimageAsTokens(d, patterns, files);
    PreimageAsTokens(d', patterns', files');
    CutAt("key-version:2", Tailed(head + t), "key-version:2", Tailed(head' + t'));
    TokensAreNulFree(patterns, files);
    TokensAreNulFree(patterns', files');
    TailedIsUnique(head + t, head' + t');
    CutAt(head, t, head', t');
    assert head[1] == d && head'[1] == d';
    TokensAreUnique(patterns, files, patterns', files');
  }

  // ---------------------------------------------------------------- the collision

  /** Manifest `j - 1` matches the file `a`, and manifest `j` a file named like the marker. */
  function Apart(n: nat, j: nat, a: string, q: string): seq<seq<File>> {
    seq(n, i => if i + 1 == j then [File(a, "\n" + q)] else if i == j then [File(MANIFEST, "")] else [])
  }

  /** Manifest `j - 1` matches the files `a` and `q`, and manifest `j` nothing. */
  function Together(n: nat, j: nat, a: string, q: string): seq<seq<File>> {
    seq(n, i => if i + 1 == j then [File(a, ""), File(q, MANIFEST)] else [])
  }

  lemma {:induction false} SharesAgree(patterns: seq<string>, c: seq<string>, c': seq<string>, i: nat)
    requires |c| == |c'| == |patterns| && i <= |patterns| && c[..i] == c'[..i]
    requires Shares(patterns[i..], c[i..]) == Shares(patterns[i..], c'[i..])
    ensures Shares(patterns, c) == Shares(patterns, c')
    decreases i
  {
    if i == 0 {
      assert patterns[0..] == patterns && c[0..] == c && c'[0..] == c';
    } else {
      assert c[0] == c[..i][0] == c'[..i][0] == c'[0];
      assert c[1..][..i - 1] == c[..i][1..] && c'[1..][..i - 1] == c'[..i][1..];
      assert patterns[1..][i - 1..] == patterns[i..] && c[1..][i - 1..] == c[i..] && c'[1..][i - 1..] == c'[i..];
      SharesAgree(patterns[1..], c[1..], c'[1..], i - 1);
    }
  }

  lemma SharesCons(p: string, patterns: seq<string>, c: string, contents: seq<string>)
    ensures Shares([p] + patterns, [c] + contents) == Share(p, c) + Shares(patterns, contents)
  {
    assert ([p] + patterns)[1..] == patterns && ([c] + contents)[1..] == contents;
  }

  /** What the first of the two shares holds in both. */
  function Line(a: string, q: string): string { a + "\0" + ("\n" + q) }

  lemma SameTwoShares(m: string, line: string, rest: string)
    ensures Share(m, line) + (Share(MANIFEST, "manifest\0") + rest) ==
            Share(m, line + "\0manifest") + (Share(MANIFEST, "") + rest)
  {
    var head := "\0manifest\0" + m + "\0";
    Grouped(head, line, "\0manifest");
    Grouped(head + line, "\0manifest", Share(MANIFEST, "") + rest);
    Grouped("\0manifest", Share(MANIFEST, ""), rest);
    assert Share(MANIFEST, "manifest\0") == "\0manifest" + Share(MANIFEST, "");
  }

  lemma ContentsOfWitness(a: string, q: string)
    ensures Contents([File(a, "\n" + q)]) == Line(a, q) && Contents([File(MANIFEST, "")]) == "manifest\0" && Contents([]) == ""
    ensures Contents([File(a, ""), File(q, MANIFEST)]) == Line(a, q) + "\0manifest"
  {
    assert [File(a, ""), File(q, MANIFEST)][1..] == [File(q, MANIFEST)];
    assert Contents([File(a, ""), File(q, MANIFEST)]) == a + "\0" + "" + "\n" + (q + "\0" + MANIFEST);
  }

  /** Two neighbouring shares that read alike leave the whole run alike. */
  lemma NeighboursAgree(patterns: seq<string>, c: seq<string>, c': seq<string>, j: nat)
    requires |c| == |c'| == |patterns| && 1 <= j < |patterns|
    requires c[..j - 1] == c'[..j - 1] && c[j + 1..] == c'[j + 1..]
    requires var rest := Shares(patterns[j + 1..], c[j + 1..]);
             Share(patterns[j - 1], c[j - 1]) + (Share(patterns[j], c[j]) + rest) ==
             Share(patterns[j - 1], c'[j - 1]) + (Share(patterns[j], c'[j]) + rest)
    ensures Shares(patterns, c) == Shares(patterns, c')
  {
    TwoFrom(patterns, c, j);
    TwoFrom(patterns, c', j);
    SharesAgree(patterns, c, c', j - 1);
  }

  lemma TwoFrom(patterns: seq<string>, c: seq<string>, j: nat)
    requires |c| == |patterns| && 1 <= j < |patterns|
    ensures Shares(patterns[j - 1..], c[j - 1..]) ==
            Share(patterns[j - 1], c[j - 1]) + (Share(patterns[j], c[j]) + Shares(patterns[j + 1..], c[j + 1..]))
  {
    TwoMore(patterns, j);
    TwoMore(c, j);
    SharesCons(patterns[j], patterns[j + 1..], c[j], c[j + 1..]);
    SharesCons(patterns[j - 1], patterns[j..], c[j - 1], c[j..]);
  }

  lemma WitnessContents(n: nat, j: nat, a: string, q: string)
    requires 1 <= j < n
    ensures var c, c' := AllContents(Apart(n, j, a, q)), AllContents(Together(n, j, a, q));
            && c[..j - 1] == c'[..j - 1] && c[j + 1..] == c'[j + 1..]
            && c[j - 1] == Line(a, q) && c[j] == "manifest\0" && c'[j - 1] == Line(a, q) + "\0manifest" && c'[j] == ""
  {
    ContentsOfWitness(a, q);
  }

  predicate IsPath(path: string) { NulFree(path) && OneLine(path) }

  lemma WitnessIsInput(patterns: seq<string>, d: string, j: nat, a: string, q: string)
    requires 1 <= j < |patterns| && NulFree(d) && IsPath(a) && IsPath(q) && LexLeq(a, q)
    ensures Input(patterns, d, Apart(|patterns|, j, a, q)) && Input(patterns, d, Together(|patterns|, j, a, q))
    ensures Apart(|patterns|, j, a, q) != Together(|patterns|, j, a, q)
  {
    assert Apart(|patterns|, j, a, q)[j] != Together(|patterns|, j, a, q)[j];
    assert Readable([File(a, "\n" + q)]) && Readable([File(MANIFEST, "")]) && Readable([]);
    assert Readable([File(a, ""), File(q, MANIFEST)]);
  }

  /**
   * A later manifest spelled like the marker lets a file cross from one manifest's share into the
   * next: for any two paths, so for two that the manifest before it matches, too.
   */
  lemma MarkerPatternCollides(patterns: seq<string>, d: string, j: nat, a: string, q: string)
    requires 1 <= j < |patterns| && patterns[j] == MANIFEST && NulFree(d)
    requires IsPath(a) && IsPath(q) && LexLeq(a, q)
    ensures var x, y := Apart(|patterns|, j, a, q), Together(|patterns|, j, a, q);
            && Input(patterns, d, x) && Input(patterns, d, y) && x != y
            && Preimage(d, patterns, AllContents(x)) == Preimage(d, patterns, AllContents(y))
  {
    var c := AllContents(Apart(|patterns|, j, a, q));
    WitnessIsInput(patterns, d, j, a, q);
    WitnessContents(|patterns|, j, a, q);
    SameTwoShares(patterns[j - 1], Line(a, q), Shares(patterns[j + 1..], c[j + 1..]));
    NeighboursAgree(patterns, c, AllContents(Together(|patterns|, j, a, q)), j);
  }

  lemma TwoMore<T>(s: seq<T>, j: nat)
    requires 1 <= j < |s|
    ensures s[j - 1..] == [s[j - 1]] + s[j..] && s[j..] == [s[j]] + s[j + 1..]
  {
  }

  /** The key tells all inputs apart exactly when no manifest after the first is spelled like the marker. */
  lemma SeparatesExactly(patterns: seq<string>)
    requires AllNulFree(patterns)
    ensures Separates(patterns) <==> NoMarkerAfterFirst(patterns)
  {
    if NoMarkerAfterFirst(patterns) {
      forall d, files, d', files' |
        && Input(patterns, d, files) && Input(patterns, d', files')
        && Preimage(d, patterns, AllContents(files)) == Preimage(d', patterns, AllContents(files'))
        ensures d == d' && files == files'
      {
        PreimageSeparates(patterns, d, files, patterns, d', files');
      }
    } else {
      var j :| 1 <= j < |patterns| && patterns[j] == MANIFEST;
      MarkerPatternCollides(patterns, "", j, "a.json", "b.json");
    }
  }

  lemma NulMoves(d: string, x: string, y: string, share: string)
    ensures d + (share + (x + (share + y))) == d + (share + x) + (share + y)
  {
  }

  /** A NUL in a text is a separator like any other: a share spelled out in a file can move into the Dockerfile. */
  lemma NulTextCollides(pattern: string, path: string, d: string, x: string, y: string)
    ensures var share := "\0manifest\0" + pattern + "\0";
            var long, short := [[File(path, x + (share + (path + "\0" + y)))]], [[File(path, y)]];
            Preimage(d, [pattern], AllContents(long)) == Preimage(d + Share(pattern, path + "\0" + x), [pattern], AllContents(short))
  {
    var share := "\0manifest\0" + pattern + "\0";
    var front, tail := path + "\0" + x, share + (path + "\0" + y);
    var long, short := [[File(path, x + tail)]], [[File(path, y)]];
    Grouped(path + "\0", x, tail);
    assert AllContents(long) == [front + tail] && AllContents(short) == [path + "\0" + y];
    OneShare(pattern, front + tail);
    OneShare(pattern, path + "\0" + y);
    NulMoves("key-version:2\0dockerfile\0" + d, front, path + "\0" + y, share);
    Grouped("key-version:2\0dockerfile\0", d, share + front);
  }

  lemma OneShare(pattern: string, contents: string)
    ensures Shares([pattern], [contents]) == Share(pattern, contents)
  {
    assert Shares([], []) == "";
  }
}
