/**
 * The output directory as the generators see it: a map from path to file
 * content. Each `fs.writeFileSync` / `fs.writeFile` is one write, applied in
 * order, and a later write to the same path replaces the earlier content.
 * Directory creation always succeeds and leaves no trace in the map.
 */
module FileSystem {
  import opened Maybe
  import opened JsString

  datatype FileWrite = FileWrite(path: string, content: string)

  type Files = map<string, string>

  /** The writes a script performs, and whether it got to its end rather than throwing. */
  datatype Run = Run(writes: seq<FileWrite>, complete: bool)

  /** `path.join(dir, seg)` for segments without `/`, `.` or `..`: an empty segment adds nothing. */
  function PathJoin(dir: string, seg: string): string {
    if seg == "" then dir
    else if dir == "" then seg
    else dir + "/" + seg
  }

  /** The files after performing `writes` in order, starting from `files`. */
  function ApplyWrites(files: Files, writes: seq<FileWrite>): Files
    decreases |writes|
  {
    if writes == [] then files
    else ApplyWrites(files[writes[0].path := writes[0].content], writes[1..])
  }

  /** The content of the last write to `p`, if any: the reference for what survives. */
  function LastWrite(writes: seq<FileWrite>, p: string): (r: Option<string>)
    ensures r.Some? ==> FileWrite(p, r.value) in writes
    ensures r.None? ==> forall w :: w in writes ==> w.path != p
    decreases |writes|
  {
    if writes == [] then None
    else if writes[|writes| - 1].path == p then Some(writes[|writes| - 1].content)
    else
      assert writes == writes[..|writes| - 1] + [writes[|writes| - 1]];
      LastWrite(writes[..|writes| - 1], p)
  }

  lemma {:induction false} ApplyWritesConcat(files: Files, a: seq<FileWrite>, b: seq<FileWrite>)
    ensures ApplyWrites(files, a + b) == ApplyWrites(ApplyWrites(files, a), b)
    decreases |a|
  {
    if a == [] {
      assert a + b == b;
    } else {
      assert (a + b)[0] == a[0];
      assert (a + b)[1..] == a[1..] + b;
      ApplyWritesConcat(files[a[0].path := a[0].content], a[1..], b);
    }
  }

  /** Last writer wins: a path holds the content of its last write, or its old content if never written. */
  lemma {:induction false} LastWriterWins(files: Files, writes: seq<FileWrite>, p: string)
    ensures p in ApplyWrites(files, writes) <==> p in files || LastWrite(writes, p).Some?
    ensures LastWrite(writes, p).Some? ==> ApplyWrites(files, writes)[p] == LastWrite(writes, p).value
    ensures LastWrite(writes, p).None? && p in files ==> ApplyWrites(files, writes)[p] == files[p]
    decreases |writes|
  {
    if writes != [] {
      var init, last := writes[..|writes| - 1], writes[|writes| - 1];
      assert writes == init + [last];
      ApplyWritesConcat(files, init, [last]);
      LastWriterWins(files, init, p);
      assert ApplyWrites(files, writes) == ApplyWrites(files, init)[last.path := last.content];
    }
  }

  /** Performing the same writes a second time changes nothing. */
  lemma WritesIdempotent(files: Files, writes: seq<FileWrite>)
    ensures ApplyWrites(ApplyWrites(files, writes), writes) == ApplyWrites(files, writes)
  {
    var once := ApplyWrites(files, writes);
    var twice := ApplyWrites(once, writes);
    forall p ensures (p in twice <==> p in once) && (p in once ==> twice[p] == once[p]) {
      LastWriterWins(files, writes, p);
      LastWriterWins(once, writes, p);
    }
  }

  /** One more write on top of a sequence of writes. */
  lemma ApplyWritesSnoc(files: Files, writes: seq<FileWrite>, w: FileWrite)
    ensures ApplyWrites(files, writes + [w]) == ApplyWrites(files, writes)[w.path := w.content]
  {
    ApplyWritesConcat(files, writes, [w]);
    var mid := ApplyWrites(files, writes);
    assert ApplyWrites(mid, [w]) == ApplyWrites(mid[w.path := w.content], []);
  }

  /** The write at index `i` is the last one to `p` when nothing after it writes `p`. */
  lemma {:induction false} LastWriteAt(writes: seq<FileWrite>, i: int, p: string)
    requires 0 <= i < |writes| && writes[i].path == p
    requires forall j :: i < j < |writes| ==> writes[j].path != p
    ensures LastWrite(writes, p) == Some(writes[i].content)
    decreases |writes|
  {
    if i < |writes| - 1 {
      var init := writes[..|writes| - 1];
      LastWriteAt(init, i, p);
    }
  }

  /** A path at or below `root` (or anywhere, for an empty root). */
  predicate Within(root: string, p: string) {
    root == "" || p == root || StartsWith(p, root + "/")
  }

  lemma PathJoinWithin(root: string, dir: string, seg: string)
    requires Within(root, dir)
    ensures Within(root, PathJoin(dir, seg))
  {
    if seg != "" && dir != "" && root != "" {
      var p := dir + "/" + seg;
      if dir == root {
        assert p[..|root + "/"|] == root + "/";
      } else {
        assert p[..|root + "/"|] == dir[..|root + "/"|];
      }
    }
  }

  /** Distinct non-empty segments give distinct paths. */
  lemma PathJoinInjective(dir: string, a: string, b: string)
    requires a != b && a != "" && b != ""
    ensures PathJoin(dir, a) != PathJoin(dir, b)
  {
    if dir != "" {
      var x, y := dir + "/" + a, dir + "/" + b;
      assert a == x[|dir| + 1..] && b == y[|dir| + 1..];
    }
  }

  /** Performing the writes one at a time. */
  lemma ApplyWritesStep(files: Files, writes: seq<FileWrite>, i: int)
    requires 0 <= i < |writes|
    ensures ApplyWrites(files, writes[..i + 1]) == ApplyWrites(files, writes[..i])[writes[i].path := writes[i].content]
  {
    assert writes[..i + 1] == writes[..i] + [writes[i]];
    ApplyWritesSnoc(files, writes[..i], writes[i]);
  }
}
