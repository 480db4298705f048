/**
 * The tree differencer: `_compare_directories` and `_files_differ`.
 *
 * An extracted archive is a `Tree`: the relative paths of its regular files in
 * the order the directory walk yields them, the bytes of each file, and the
 * relative paths that name directories.  Relative paths are written the way
 * the comparison reports them: a top-level entry `name` appears as `./name`,
 * a nested one as `dir/name`.  Directories are kept because the existence
 * test of the source (`os.path.exists`) also succeeds on a directory.
 *
 * The SHA-256 digest is the parameter `hash`; reading a file is the lookup
 * `files[p]`.
 */
module TreeDiff {

  newtype byte = x: int | 0 <= x < 256
  type Bytes = seq<byte>
  type Path = string
  type Digest = string

  datatype Tree = Tree(walk: seq<Path>, files: map<Path, Bytes>, dirs: set<Path>)

  /** What an extracted directory tree looks like: each file walked once, no file is also a directory. */
  ghost predicate WellFormed(t: Tree)
  {
    && Distinct(t.walk)
    && (forall p :: p in t.files <==> p in t.walk)
    && (forall p :: p in t.files ==> p !in t.dirs)
  }

  ghost predicate Distinct(s: seq<Path>)
  {
    forall i, j :: 0 <= i < j < |s| ==> s[i] != s[j]
  }

  /** `os.path.exists`: true for a file and for a directory. */
  predicate Exists(t: Tree, p: Path)
  {
    p in t.files || p in t.dirs
  }

  /** The digest is collision-free: equal digests mean equal bytes. */
  ghost predicate CollisionFree(hash: Bytes -> Digest)
  {
    forall a, b :: hash(a) == hash(b) ==> a == b
  }

  /** `_files_differ`: the two contents have different digests. */
  predicate FilesDiffer(hash: Bytes -> Digest, a: Bytes, b: Bytes)
  {
    hash(a) != hash(b)
  }

  /** With a collision-free digest, two files differ exactly when their bytes differ. */
  lemma FilesDifferIffBytesDiffer(hash: Bytes -> Digest, a: Bytes, b: Bytes)
    requires CollisionFree(hash)
    ensures FilesDiffer(hash, a, b) <==> a != b
  {
  }

  datatype ChangeSet = ChangeSet(added: seq<Path>, removed: seq<Path>, modified: seq<Path>, unmodified: seq<Path>)

  /** Hashing a path that names a directory raises (`IsADirectoryError`). */
  datatype DiffError = NotAFile(path: Path)

  datatype Result<T> = Ok(value: T) | Err(error: DiffError)

  const EmptyChangeSet := ChangeSet([], [], [], [])

  /**
   * The walk of tree 1 over `walk`, as a left fold: a path that is a file of
   * tree 2 goes to `modified` or `unchanged` by digest, a path in `blocked`
   * fails, any other path goes to `removed`.  The code as written blocks the
   * directories of tree 2; the corrected differencer blocks nothing.
   */
  function FirstPass(t1: Tree, t2: Tree, hash: Bytes -> Digest, blocked: set<Path>, walk: seq<Path>): Result<ChangeSet>
    requires forall p :: p in walk ==> p in t1.files
    decreases |walk|
  {
    if walk == [] then Ok(EmptyChangeSet)
    else
      match FirstPass(t1, t2, hash, blocked, walk[..|walk| - 1])
      case Err(e) => Err(e)
      case Ok(cs) => SortPath(t1, t2, hash, blocked, cs, walk[|walk| - 1])
  }

  /** One step of the walk of tree 1: where the file `p` of tree 1 goes. */
  function SortPath(t1: Tree, t2: Tree, hash: Bytes -> Digest, blocked: set<Path>, cs: ChangeSet, p: Path): Result<ChangeSet>
    requires p in t1.files
  {
    if p in t2.files then
      if FilesDiffer(hash, t1.files[p], t2.files[p]) then Ok(cs.(modified := cs.modified + [p]))
      else Ok(cs.(unmodified := cs.unmodified + [p]))
    else if p in blocked then Err(NotAFile(p))
    else Ok(cs.(removed := cs.removed + [p]))
  }

  /** The walk of tree 2: the paths of `walk` that are not in `present`, in walk order. */
  function SecondPass(present: set<Path>, walk: seq<Path>): seq<Path>
    decreases |walk|
  {
    if walk == [] then []
    else
      var p := walk[|walk| - 1];
      SecondPass(present, walk[..|walk| - 1]) + if p in present then [] else [p]
  }

  /** `_compare_directories` as written: existence is `os.path.exists`. */
  function DiffAsWritten(t1: Tree, t2: Tree, hash: Bytes -> Digest): Result<ChangeSet>
    requires WellFormed(t1)
  {
    match FirstPass(t1, t2, hash, t2.dirs, t1.walk)
    case Err(e) => Err(e)
    case Ok(cs) => Ok(cs.(added := SecondPass(t1.files.Keys + t1.dirs, t2.walk)))
  }

  /** The differencer with existence meaning "is a file of the other tree". */
  function Diff(t1: Tree, t2: Tree, hash: Bytes -> Digest): (d: ChangeSet)
    requires WellFormed(t1)
  {
    FirstPassOk(t1, t2, hash, t1.walk);
    FirstPass(t1, t2, hash, {}, t1.walk).value.(added := SecondPass(t1.files.Keys, t2.walk))
  }

  /** With nothing blocked the first pass never fails. */
  lemma {:induction false} FirstPassOk(t1: Tree, t2: Tree, hash: Bytes -> Digest, walk: seq<Path>)
    requires forall p :: p in walk ==> p in t1.files
    ensures FirstPass(t1, t2, hash, {}, walk).Ok?
    ensures FirstPass(t1, t2, hash, {}, walk).value.added == []
    decreases |walk|
  {
    if walk != [] {
      FirstPassOk(t1, t2, hash, walk[..|walk| - 1]);
    }
  }

  /**
   * `_compare_directories`: walk tree 1 sorting each file into modified,
   * unchanged or removed, then walk tree 2 collecting the added files.
   */
  method CompareDirectories(t1: Tree, t2: Tree, hash: Bytes -> Digest) returns (r: Result<ChangeSet>)
    requires WellFormed(t1)
    ensures r == DiffAsWritten(t1, t2, hash)
    ensures NoClash(t1, t2) && WellFormed(t2) ==> r == Ok(Diff(t1, t2, hash))
  {
    NoClashAgree(t1, t2, hash);
    r := WalkFirst(t1, t2, hash, t2.dirs);
    if r.Err? {
      return;
    }
    var added := WalkSecond(t1.files.Keys + t1.dirs, t2.walk);
    r := Ok(r.value.(added := added));
  }

  /**
   * The comparison with the existence test corrected: a path counts as
   * present only when the other tree has a file there.  It cannot fail.
   */
  method CompareTrees(t1: Tree, t2: Tree, hash: Bytes -> Digest) returns (cs: ChangeSet)
    requires WellFormed(t1)
    ensures cs == Diff(t1, t2, hash)
  {
    FirstPassOk(t1, t2, hash, t1.walk);
    var first := WalkFirst(t1, t2, hash, {});
    var added := WalkSecond(t1.files.Keys, t2.walk);
    cs := first.value.(added := added);
  }

  /**
   * The walk of tree 1: a path that exists in tree 2 is hashed on both
   * sides, which fails when tree 2 has no file there (a path of `blocked`);
   * any other path is removed.
   */
  method WalkFirst(t1: Tree, t2: Tree, hash: Bytes -> Digest, blocked: set<Path>) returns (r: Result<ChangeSet>)
    requires WellFormed(t1)
    ensures r == FirstPass(t1, t2, hash, blocked, t1.walk)
  {
    var removed, modified, unmodified := [], [], [];
    var i := 0;
    while i < |t1.walk|
      invariant 0 <= i <= |t1.walk|
      invariant FirstPass(t1, t2, hash, blocked, t1.walk[..i]) == Ok(ChangeSet([], removed, modified, unmodified))
    {
      var p := t1.walk[i];
      FirstPassStep(t1, t2, hash, blocked, i);
      if p in t2.files || p in blocked {
        if p !in t2.files {
          // hashing what is not a file raises
          FirstPassFailsAt(t1, t2, hash, blocked, i);
          return Err(NotAFile(p));
        }
        if hash(t1.files[p]) != hash(t2.files[p]) {
          modified := modified + [p];
        } else {
          unmodified := unmodified + [p];
        }
      } else {
        removed := removed + [p];
      }
      i := i + 1;
    }
    assert t1.walk[..i] == t1.walk;
    r := Ok(ChangeSet([], removed, modified, unmodified));
  }

  /** The walk of tree 2: every path not in `present` is added, in walk order. */
  method WalkSecond(present: set<Path>, walk: seq<Path>) returns (added: seq<Path>)
    ensures added == SecondPass(present, walk)
  {
    added := [];
    var j := 0;
    while j < |walk|
      invariant 0 <= j <= |walk|
      invariant added == SecondPass(present, walk[..j])
    {
      var p := walk[j];
      assert walk[..j + 1][..j] == walk[..j];
      if p !in present {
        added := added + [p];
      }
      j := j + 1;
    }
    assert walk[..j] == walk;
  }

  /** The walk of tree 1 up to and including its `i`-th path, after a successful prefix. */
  lemma FirstPassStep(t1: Tree, t2: Tree, hash: Bytes -> Digest, blocked: set<Path>, i: nat)
    requires WellFormed(t1) && i < |t1.walk|
    requires FirstPass(t1, t2, hash, blocked, t1.walk[..i]).Ok?
    ensures FirstPass(t1, t2, hash, blocked, t1.walk[..i + 1])
         == SortPath(t1, t2, hash, blocked, FirstPass(t1, t2, hash, blocked, t1.walk[..i]).value, t1.walk[i])
  {
    assert t1.walk[..i + 1][..i] == t1.walk[..i];
  }

  /** The walk of tree 1 fails at the first path that tree 2 blocks. */
  lemma FirstPassFailsAt(t1: Tree, t2: Tree, hash: Bytes -> Digest, blocked: set<Path>, i: nat)
    requires WellFormed(t1) && i < |t1.walk|
    requires FirstPass(t1, t2, hash, blocked, t1.walk[..i]).Ok?
    requires t1.walk[i] !in t2.files && t1.walk[i] in blocked
    ensures FirstPass(t1, t2, hash, blocked, t1.walk) == Err(NotAFile(t1.walk[i]))
  {
    assert t1.walk[..i + 1][..i] == t1.walk[..i];
    FirstPassPrefixErr(t1, t2, hash, blocked, t1.walk, i + 1);
    assert t1.walk[..|t1.walk|] == t1.walk;
  }

  /** Once the walk of tree 1 has failed, it stays failed. */
  lemma {:induction false} FirstPassPrefixErr(t1: Tree, t2: Tree, hash: Bytes -> Digest, blocked: set<Path>, walk: seq<Path>, k: nat)
    requires forall p :: p in walk ==> p in t1.files
    requires k <= |walk|
    requires FirstPass(t1, t2, hash, blocked, walk[..k]).Err?
    ensures FirstPass(t1, t2, hash, blocked, walk) == FirstPass(t1, t2, hash, blocked, walk[..k])
    decreases |walk| - k
  {
    if k < |walk| {
      assert walk[..k + 1][..k] == walk[..k];
      FirstPassPrefixErr(t1, t2, hash, blocked, walk, k + 1);
    } else {
      assert walk[..k] == walk;
    }
  }

  /** The walk of tree 1 fails when it meets a path that is blocked and is not a file of tree 2. */
  lemma {:induction false} FirstPassBlocked(t1: Tree, t2: Tree, hash: Bytes -> Digest, blocked: set<Path>, walk: seq<Path>, p: Path)
    requires forall q :: q in walk ==> q in t1.files
    requires p in walk && p in blocked && p !in t2.files
    ensures FirstPass(t1, t2, hash, blocked, walk).Err?
    decreases |walk|
  {
    var init, last := walk[..|walk| - 1], walk[|walk| - 1];
    assert walk == init + [last];
    if p in init {
      FirstPassBlocked(t1, t2, hash, blocked, init, p);
    }
  }

  /**
   * The code as written raises whenever a file of tree 1 is a directory in
   * tree 2: hashing the directory fails, if no earlier path failed first.
   */
  lemma DiffAsWrittenAborts(t1: Tree, t2: Tree, hash: Bytes -> Digest, p: Path)
    requires WellFormed(t1) && WellFormed(t2)
    requires p in t1.files && p in t2.dirs
    ensures DiffAsWritten(t1, t2, hash).Err?
  {
    FirstPassBlocked(t1, t2, hash, t2.dirs, t1.walk, p);
  }

  /** No path is a file in one tree and a directory in the other. */
  ghost predicate NoClash(t1: Tree, t2: Tree)
  {
    (forall p :: p in t1.files ==> p !in t2.dirs) && (forall p :: p in t2.files ==> p !in t1.dirs)
  }

  lemma {:induction false} FirstPassUnblocked(t1: Tree, t2: Tree, hash: Bytes -> Digest, blocked: set<Path>, walk: seq<Path>)
    requires forall p :: p in walk ==> p in t1.files
    requires forall p :: p in walk ==> p !in blocked
    ensures FirstPass(t1, t2, hash, blocked, walk) == FirstPass(t1, t2, hash, {}, walk)
    decreases |walk|
  {
    if walk != [] {
      FirstPassUnblocked(t1, t2, hash, blocked, walk[..|walk| - 1]);
    }
  }

  lemma {:induction false} SecondPassIgnoresAbsent(present: set<Path>, extra: set<Path>, walk: seq<Path>)
    requires forall p :: p in walk ==> p !in extra
    ensures SecondPass(present + extra, walk) == SecondPass(present, walk)
    decreases |walk|
  {
    if walk != [] {
      SecondPassIgnoresAbsent(present, extra, walk[..|walk| - 1]);
    }
  }

  /** When no file meets a directory, the code as written and the corrected differencer agree. */
  lemma NoClashAgree(t1: Tree, t2: Tree, hash: Bytes -> Digest)
    requires WellFormed(t1)
    ensures NoClash(t1, t2) && WellFormed(t2) ==> DiffAsWritten(t1, t2, hash) == Ok(Diff(t1, t2, hash))
  {
    if NoClash(t1, t2) && WellFormed(t2) {
      assert forall p :: p in t1.walk ==> p !in t2.dirs;
      assert forall p :: p in t2.walk ==> p !in t1.dirs;
      FirstPassUnblocked(t1, t2, hash, t2.dirs, t1.walk);
      FirstPassOk(t1, t2, hash, t1.walk);
      SecondPassIgnoresAbsent(t1.files.Keys, t1.dirs, t2.walk);
    }
  }

  /** `a` is `b` with some elements left out, the rest in the same order. */
  predicate IsSubsequence(a: seq<Path>, b: seq<Path>)
    decreases |b|
  {
    if a == [] then true
    else if b == [] then false
    else (a[|a| - 1] == b[|b| - 1] && IsSubsequence(a[..|a| - 1], b[..|b| - 1])) || IsSubsequence(a, b[..|b| - 1])
  }

  lemma IsSubsequenceSnoc(a: seq<Path>, b: seq<Path>, x: Path)
    requires IsSubsequence(a, b)
    ensures IsSubsequence(a + [x], b + [x]) && IsSubsequence(a, b + [x])
  {
    assert (a + [x])[..|a|] == a;
    assert (b + [x])[..|b|] == b;
  }

  lemma {:induction false} DistinctMultiplicity(s: seq<Path>)
    requires Distinct(s)
    ensures forall p :: multiset(s)[p] == if p in s then 1 else 0
    decreases |s|
  {
    if s != [] {
      var init, last := s[..|s| - 1], s[|s| - 1];
      assert Distinct(init);
      DistinctMultiplicity(init);
      assert s == init + [last];
      assert forall k :: 0 <= k < |init| ==> init[k] != last;
    }
  }

  /** The corrected first pass loses and repeats nothing: its three lists together are the walk. */
  lemma {:induction false} FirstPassCounts(t1: Tree, t2: Tree, hash: Bytes -> Digest, walk: seq<Path>)
    requires forall p :: p in walk ==> p in t1.files
    ensures FirstPass(t1, t2, hash, {}, walk).Ok?
    ensures var cs := FirstPass(t1, t2, hash, {}, walk).value;
      multiset(cs.removed) + multiset(cs.modified) + multiset(cs.unmodified) == multiset(walk)
    decreases |walk|
  {
    if walk != [] {
      var init, last := walk[..|walk| - 1], walk[|walk| - 1];
      FirstPassCounts(t1, t2, hash, init);
      var cs := FirstPass(t1, t2, hash, {}, init).value;
      assert FirstPass(t1, t2, hash, {}, walk) == SortPath(t1, t2, hash, {}, cs, last);
      MultisetSnoc(walk);
    }
  }

  lemma MultisetSnoc(s: seq<Path>)
    requires s != []
    ensures multiset(s) == multiset(s[..|s| - 1]) + multiset{s[|s| - 1]}
  {
    assert s == s[..|s| - 1] + [s[|s| - 1]];
  }

  /** The corrected first pass sorts each walked path by presence in tree 2 and by digest. */
  lemma {:induction false} FirstPassMembers(t1: Tree, t2: Tree, hash: Bytes -> Digest, walk: seq<Path>)
    requires forall p :: p in walk ==> p in t1.files
    ensures FirstPass(t1, t2, hash, {}, walk).Ok?
    ensures var cs := FirstPass(t1, t2, hash, {}, walk).value;
      && (forall p :: p in cs.modified <==> p in walk && p in t2.files && FilesDiffer(hash, t1.files[p], t2.files[p]))
      && (forall p :: p in cs.unmodified <==> p in walk && p in t2.files && !FilesDiffer(hash, t1.files[p], t2.files[p]))
      && (forall p :: p in cs.removed <==> p in walk && p !in t2.files)
    decreases |walk|
  {
    if walk != [] {
      var init, last := walk[..|walk| - 1], walk[|walk| - 1];
      FirstPassMembers(t1, t2, hash, init);
      var cs := FirstPass(t1, t2, hash, {}, init).value;
      assert FirstPass(t1, t2, hash, {}, walk) == SortPath(t1, t2, hash, {}, cs, last);
      assert walk == init + [last];
      assert forall p :: p in walk <==> p in init || p == last;
    }
  }

  /** The corrected first pass keeps walk order in each list. */
  lemma {:induction false} FirstPassOrder(t1: Tree, t2: Tree, hash: Bytes -> Digest, walk: seq<Path>)
    requires forall p :: p in walk ==> p in t1.files
    ensures FirstPass(t1, t2, hash, {}, walk).Ok?
    ensures var cs := FirstPass(t1, t2, hash, {}, walk).value;
      IsSubsequence(cs.removed, walk) && IsSubsequence(cs.modified, walk) && IsSubsequence(cs.unmodified, walk)
    decreases |walk|
  {
    if walk != [] {
      var init, p := walk[..|walk| - 1], walk[|walk| - 1];
      FirstPassOrder(t1, t2, hash, init);
      var cs := FirstPass(t1, t2, hash, {}, init).value;
      assert FirstPass(t1, t2, hash, {}, walk) == SortPath(t1, t2, hash, {}, cs, p);
      assert walk == init + [p];
      IsSubsequenceSnoc(cs.removed, init, p);
      IsSubsequenceSnoc(cs.modified, init, p);
      IsSubsequenceSnoc(cs.unmodified, init, p);
      var next := FirstPass(t1, t2, hash, {}, walk).value;
      if p !in t2.files {
        assert next == cs.(removed := cs.removed + [p]);
      } else if FilesDiffer(hash, t1.files[p], t2.files[p]) {
        assert next == cs.(modified := cs.modified + [p]);
      } else {
        assert next == cs.(unmodified := cs.unmodified + [p]);
      }
    }
  }

  /** The second pass keeps exactly the walked paths that are not present. */
  lemma {:induction false} SecondPassMembers(present: set<Path>, walk: seq<Path>)
    ensures multiset(SecondPass(present, walk)) <= multiset(walk)
    ensures forall p :: p in SecondPass(present, walk) <==> p in walk && p !in present
    decreases |walk|
  {
    if walk != [] {
      var init, last := walk[..|walk| - 1], walk[|walk| - 1];
      SecondPassMembers(present, init);
      assert walk == init + [last];
      assert forall p :: p in walk <==> p in init || p == last;
    }
  }

  /** The second pass keeps walk order. */
  lemma {:induction false} SecondPassOrder(present: set<Path>, walk: seq<Path>)
    ensures IsSubsequence(SecondPass(present, walk), walk)
    decreases |walk|
  {
    if walk != [] {
      var init, p := walk[..|walk| - 1], walk[|walk| - 1];
      SecondPassOrder(present, init);
      assert walk == init + [p];
      IsSubsequenceSnoc(SecondPass(present, init), init, p);
      if p in present {
        assert SecondPass(present, walk) == SecondPass(present, init);
      }
    }
  }

  /**
   * Which list each path lands in: added exactly when it is a file of tree 2
   * only, removed when a file of tree 1 only, modified or unchanged when a
   * file of both, by digest.  Each list keeps the order of its walk.
   */
  lemma DiffMembership(t1: Tree, t2: Tree, hash: Bytes -> Digest)
    requires WellFormed(t1) && WellFormed(t2)
    ensures var d := Diff(t1, t2, hash);
      && (forall p :: p in d.added <==> p in t2.files && p !in t1.files)
      && (forall p :: p in d.removed <==> p in t1.files && p !in t2.files)
      && (forall p :: p in d.modified <==> p in t1.files && p in t2.files && FilesDiffer(hash, t1.files[p], t2.files[p]))
      && (forall p :: p in d.unmodified <==> p in t1.files && p in t2.files && !FilesDiffer(hash, t1.files[p], t2.files[p]))
      && IsSubsequence(d.removed, t1.walk) && IsSubsequence(d.modified, t1.walk) && IsSubsequence(d.unmodified, t1.walk)
      && IsSubsequence(d.added, t2.walk)
  {
    FirstPassMembers(t1, t2, hash, t1.walk);
    FirstPassOrder(t1, t2, hash, t1.walk);
    SecondPassMembers(t1.files.Keys, t2.walk);
    SecondPassOrder(t1.files.Keys, t2.walk);
  }

  /** How often one path occurs in added, modified and unchanged together: as often as tree 2 walks it. */
  lemma SecondSideCount(t1: Tree, t2: Tree, hash: Bytes -> Digest, p: Path)
    requires WellFormed(t1) && WellFormed(t2)
    ensures var d := Diff(t1, t2, hash);
      multiset(d.added)[p] + multiset(d.modified)[p] + multiset(d.unmodified)[p] == multiset(t2.walk)[p]
  {
    var d := Diff(t1, t2, hash);
    FirstPassCounts(t1, t2, hash, t1.walk);
    FirstPassMembers(t1, t2, hash, t1.walk);
    SecondPassMembers(t1.files.Keys, t2.walk);
    DistinctMultiplicity(t1.walk);
    DistinctMultiplicity(t2.walk);
    assert multiset(d.modified)[p] + multiset(d.unmodified)[p] <= multiset(t1.walk)[p];
    assert multiset(d.added)[p] <= multiset(t2.walk)[p];
  }

  /**
   * The partition: removed, modified and unchanged together are the files of
   * tree 1, each once; added, modified and unchanged together are the files
   * of tree 2, each once.
   */
  lemma DiffPartition(t1: Tree, t2: Tree, hash: Bytes -> Digest)
    requires WellFormed(t1) && WellFormed(t2)
    ensures var d := Diff(t1, t2, hash);
      && multiset(d.removed) + multiset(d.modified) + multiset(d.unmodified) == multiset(t1.walk)
      && multiset(d.added) + multiset(d.modified) + multiset(d.unmodified) == multiset(t2.walk)
      && |d.removed| + |d.modified| + |d.unmodified| == |t1.walk|
      && |d.added| + |d.modified| + |d.unmodified| == |t2.walk|
  {
    var d := Diff(t1, t2, hash);
    FirstPassCounts(t1, t2, hash, t1.walk);
    forall p
      ensures (multiset(d.added) + multiset(d.modified) + multiset(d.unmodified))[p] == multiset(t2.walk)[p]
    {
      SecondSideCount(t1, t2, hash, p);
    }
    assert multiset(d.added) + multiset(d.modified) + multiset(d.unmodified) == multiset(t2.walk);
    assert |multiset(d.added) + multiset(d.modified) + multiset(d.unmodified)| == |multiset(t2.walk)|;
    assert |multiset(d.removed) + multiset(d.modified) + multiset(d.unmodified)| == |multiset(t1.walk)|;
  }

  lemma {:induction false} FirstPassSame(t: Tree, hash: Bytes -> Digest, walk: seq<Path>)
    requires forall p :: p in walk ==> p in t.files
    ensures FirstPass(t, t, hash, {}, walk) == Ok(ChangeSet([], [], [], walk))
    decreases |walk|
  {
    if walk != [] {
      FirstPassSame(t, hash, walk[..|walk| - 1]);
      assert walk[..|walk| - 1] + [walk[|walk| - 1]] == walk;
    }
  }

  lemma {:induction false} SecondPassAllPresent(present: set<Path>, walk: seq<Path>)
    requires forall p :: p in walk ==> p in present
    ensures SecondPass(present, walk) == []
    decreases |walk|
  {
    if walk != [] {
      SecondPassAllPresent(present, walk[..|walk| - 1]);
    }
  }

  /** Comparing a tree with itself reports every file as unchanged, in walk order, and nothing else. */
  lemma DiffIdentical(t: Tree, hash: Bytes -> Digest)
    requires WellFormed(t)
    ensures Diff(t, t, hash) == ChangeSet([], [], [], t.walk)
    ensures DiffAsWritten(t, t, hash) == Ok(ChangeSet([], [], [], t.walk))
  {
    FirstPassSame(t, hash, t.walk);
    SecondPassAllPresent(t.files.Keys, t.walk);
    NoClashAgree(t, t, hash);
  }

  /**
   * The code as written loses a file: a file of tree 2 at a path that is a
   * directory in tree 1 is in none of the four lists, while the corrected
   * differencer reports it as added.  The converse clash aborts the
   * comparison, where the corrected differencer reports a removal.
   */
  lemma DirectoryClashAsWritten(hash: Bytes -> Digest)
    ensures var dirTree := Tree([], map[], {"./Firmware"});
      var fileTree := Tree(["./Firmware"], map["./Firmware" := []], {});
      && WellFormed(dirTree) && WellFormed(fileTree)
      && DiffAsWritten(dirTree, fileTree, hash) == Ok(EmptyChangeSet)
      && Diff(dirTree, fileTree, hash).added == ["./Firmware"]
      && DiffAsWritten(fileTree, dirTree, hash) == Err(NotAFile("./Firmware"))
      && Diff(fileTree, dirTree, hash).removed == ["./Firmware"]
  {
    var dirTree := Tree([], map[], {"./Firmware"});
    var fileTree := Tree(["./Firmware"], map["./Firmware" := []], {});
    var path := "./Firmware";
    assert fileTree.walk[..0] == [];
    assert FirstPass(dirTree, fileTree, hash, fileTree.dirs, []) == Ok(EmptyChangeSet);
    assert SecondPass(dirTree.files.Keys + dirTree.dirs, [path]) == [];
    assert SecondPass(dirTree.files.Keys, [path]) == [path];
    assert FirstPass(fileTree, dirTree, hash, dirTree.dirs, [path]) == Err(NotAFile(path));
    assert FirstPass(fileTree, dirTree, hash, {}, [path]).value.removed == [path];
  }
}
