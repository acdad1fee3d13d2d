/** The dataset viewer: a keystroke loop over the images of a CSV file.

    The loop shows image number `index`, waits for a key and moves: `d`
    forward, `a` backward, `w` forward after copying the shown image into
    the folder of wrongly labelled images, `q` quits. A file that is missing
    is reported and skipped without waiting for a key. Keys are taken from a
    finite stream; when it is used up the session is left waiting at the
    last image shown. When every image file is missing the loop skips
    forever; the model stops after one full round of misses and reports the
    session as spinning. */
module InspectDataset {
  import opened Common
  import opened Paths
  import Dicts
  import Arithmetic

  /** The key codes `cv2.waitKey` returns for the four bound keys. */
  const KeyForward := 100  // ord("d")
  const KeyBack := 97      // ord("a")
  const KeyFlag := 119     // ord("w")
  const KeyQuit := 113     // ord("q")

  /** What the loop works on: the image names, the two directories, and the
      file-exists test `os.path.isfile`, which is taken as given. */
  datatype Setup = Setup(images: seq<string>, datasetDir: string, incorrectDir: string, isFile: string -> bool)

  /** `df.filename.unique()`: the file names of the CSV rows, each once, in
      order of first appearance. */
  function SetupOf(filenames: seq<string>, datasetDir: string, incorrectDir: string, isFile: string -> bool): (s: Setup)
    ensures forall name :: name in s.images <==> name in filenames
    ensures forall a, b :: 0 <= a < b < |s.images| ==> s.images[a] != s.images[b]
    ensures forall a, b :: 0 <= a < b < |s.images| ==> Dicts.FirstIndex(filenames, s.images[a]) < Dicts.FirstIndex(filenames, s.images[b])
    ensures s.datasetDir == datasetDir && s.incorrectDir == incorrectDir && s.isFile == isFile
  {
    Setup(Dicts.Dedup(filenames), datasetDir, incorrectDir, isFile)
  }

  /** What the loop does to the outside world. */
  datatype Effect =
    | NotFound(path: string)                // ">>> File not found"
    | Show(index: int, name: string)        // the image drawn with its number
    | Copy(source: string, target: string)  // `shutil.copy`
    | Report(index: int)                    // ">>> Current index"

  /** How a session ends. */
  datatype Stop = Quit | Waiting | Spinning | Raised(error: Error)

  datatype Session = Session(stop: Stop, index: int, effects: seq<Effect>)

  function Prepend(effects: seq<Effect>, r: Session): (t: Session)
    ensures t.stop == r.stop && t.index == r.index && t.effects == effects + r.effects
  {
    r.(effects := effects + r.effects)
  }

  /** Python's `images[index]` on a list of length `n`: indices from `-n`
      up to `n - 1` are valid, the negative ones counting from the end. */
  function PyIndex(n: int, index: int): (at: Option<nat>)
    requires n >= 0
    ensures at.Some? <==> -n <= index < n
    ensures at.Some? ==> at.value < n && (at.value == index || at.value == index + n)
  {
    if 0 <= index < n then Some(index)
    else if -n <= index < 0 then Some(index + n)
    else None
  }

  /** Python's `a % n` for a positive `n`. Python's remainder takes the sign
      of the divisor; for a positive divisor that is Dafny's Euclidean
      remainder. */
  function PyMod(a: int, n: int): (r: int)
    requires n > 0
    ensures 0 <= r < n
    ensures 0 <= a < n ==> r == a
    ensures a == n ==> r == 0
    ensures a == -1 ==> r == n - 1
  {
    if 0 <= a < n then Arithmetic.DivModUnique(a, n, 0, a); a % n
    else if a == n then Arithmetic.DivModUnique(a, n, 1, 0); a % n
    else if a == -1 then Arithmetic.DivModUnique(a, n, -1, n - 1); a % n
    else a % n
  }

  /** The index after a key other than `q` is handled. */
  function NextIndex(index: int, key: int, n: int): (next: int)
    requires n > 0
    ensures key == KeyForward || key == KeyFlag ==> next == PyMod(index + 1, n)
    ensures key == KeyBack ==> next == PyMod(index - 1, n)
    ensures key != KeyForward && key != KeyFlag && key != KeyBack ==> next == index
  {
    if key == KeyForward || key == KeyFlag then PyMod(index + 1, n)
    else if key == KeyBack then PyMod(index - 1, n)
    else index
  }

  predicate Present(s: Setup, p: int)
    requires 0 <= p < |s.images|
  {
    s.isFile(PathJoin(s.datasetDir, s.images[p]))
  }

  /** The session that starts at `index` with the key stream `keys`, after
      `misses` missing files in a row. */
  function Navigate(s: Setup, index: int, keys: seq<int>, misses: nat): (r: Session)
    requires misses <= |s.images|
    decreases |keys|, |s.images| - misses
  {
    var n := |s.images|;
    match PyIndex(n, index)
    case None => Session(Raised(IndexError), index, [])
    case Some(at) =>
      var name := s.images[at];
      var path := PathJoin(s.datasetDir, name);
      if !s.isFile(path) then
        var skipped := PyMod(index + 1, n);
        if misses + 1 >= n then Session(Spinning, skipped, [NotFound(path)])
        else Prepend([NotFound(path)], Navigate(s, skipped, keys, misses + 1))
      else if keys == [] then Session(Waiting, index, [Show(index, name)])
      else if keys[0] == KeyQuit then Session(Quit, index, [Show(index, name), Report(index)])
      else
        var copied := if keys[0] == KeyFlag then [Copy(path, PathJoin(s.incorrectDir, name))] else [];
        Prepend([Show(index, name)] + copied, Navigate(s, NextIndex(index, keys[0], n), keys[1..], 0))
  }

  /** The session of `main`, from the starting index given on the command line. */
  function Inspection(s: Setup, start: int, keys: seq<int>): Session {
    Navigate(s, start, keys, 0)
  }

  /** The loop of `main`, one key or one missing file per iteration. */
  method Inspect(s: Setup, start: int, keys: seq<int>) returns (r: Session)
    ensures r == Inspection(s, start, keys)
  {
    var n := |s.images|;
    var index := start;
    var k := 0;
    var misses := 0;
    var effects := [];
    ghost var goal := Inspection(s, start, keys);
    while true
      invariant 0 <= k <= |keys| && misses <= n
      invariant goal == Prepend(effects, Navigate(s, index, keys[k..], misses))
      decreases |keys| - k, n - misses
    {
      var at := PyIndex(n, index);
      if at.None? {
        return Session(Raised(IndexError), index, effects);
      }
      var name := s.images[at.value];
      var path := PathJoin(s.datasetDir, name);
      if !s.isFile(path) {
        if misses + 1 >= n {
          return Session(Spinning, PyMod(index + 1, n), effects + [NotFound(path)]);
        }
        SkipMissing(s, index, keys[k..], misses);
        PrependTwice(effects, [NotFound(path)], Navigate(s, PyMod(index + 1, n), keys[k..], misses + 1));
        effects := effects + [NotFound(path)];
        index := PyMod(index + 1, n);
        misses := misses + 1;
        continue;
      }
      if k == |keys| {
        return Session(Waiting, index, effects + [Show(index, name)]);
      }
      var key := keys[k];
      if key == KeyQuit {
        return Session(Quit, index, effects + [Show(index, name), Report(index)]);
      }
      ReadKey(s, index, keys[k..], misses);
      assert keys[k..][1..] == keys[k + 1..];
      ghost var next := NextIndex(index, key, n);
      ghost var shown := [Show(index, name)] + if key == KeyFlag then [Copy(path, PathJoin(s.incorrectDir, name))] else [];
      ghost var before := effects;
      PrependTwice(effects, shown, Navigate(s, next, keys[k + 1..], 0));
      effects := effects + [Show(index, name)];
      k := k + 1;
      misses := 0;
      if key == KeyForward {
        index := PyMod(index + 1, n);
      } else if key == KeyBack {
        index := PyMod(index - 1, n);
      } else if key == KeyFlag {
        index := PyMod(index + 1, n);
        effects := effects + [Copy(path, PathJoin(s.incorrectDir, name))];
      }
      assert index == next;
      assert effects == before + shown;
    }
  }

  /** Two batches of effects in front of a session are their concatenation. */
  lemma PrependTwice(a: seq<Effect>, b: seq<Effect>, r: Session)
    ensures Prepend(a, Prepend(b, r)) == Prepend(a + b, r)
  {
    assert a + (b + r.effects) == (a + b) + r.effects;
  }

  /** A missing file, when the round of misses is not yet complete: reported,
      skipped, and no key read. */
  lemma SkipMissing(s: Setup, index: int, keys: seq<int>, misses: nat)
    requires misses + 1 < |s.images| && -|s.images| <= index < |s.images|
    requires !Present(s, PyIndex(|s.images|, index).value)
    ensures var path := PathJoin(s.datasetDir, s.images[PyIndex(|s.images|, index).value]);
      Navigate(s, index, keys, misses) == Prepend([NotFound(path)], Navigate(s, PyMod(index + 1, |s.images|), keys, misses + 1))
  {
  }

  /** An image shown and a key other than `q` read: the image, for `w` its
      copy, and the session from the next index. */
  lemma ReadKey(s: Setup, index: int, keys: seq<int>, misses: nat)
    requires misses <= |s.images| && -|s.images| <= index < |s.images|
    requires Present(s, PyIndex(|s.images|, index).value)
    requires keys != [] && keys[0] != KeyQuit
    ensures var name := s.images[PyIndex(|s.images|, index).value];
      var copied := if keys[0] == KeyFlag then [Copy(PathJoin(s.datasetDir, name), PathJoin(s.incorrectDir, name))] else [];
      Navigate(s, index, keys, misses) == Prepend([Show(index, name)] + copied, Navigate(s, NextIndex(index, keys[0], |s.images|), keys[1..], 0))
  {
  }

  // ----- moving around the list -----------------------------------------

  /** `d` and `a` undo each other, and both wrap around the ends. */
  lemma ForwardBack(index: int, n: int)
    requires 0 <= index < n
    ensures NextIndex(NextIndex(index, KeyForward, n), KeyBack, n) == index
    ensures NextIndex(NextIndex(index, KeyBack, n), KeyForward, n) == index
    ensures index == n - 1 ==> NextIndex(index, KeyForward, n) == 0
    ensures index == 0 ==> NextIndex(index, KeyBack, n) == n - 1
  {
    if index + 1 < n {
      assert NextIndex(index, KeyForward, n) == index + 1;
    } else {
      assert NextIndex(index, KeyForward, n) == 0;
    }
    if index > 0 {
      assert NextIndex(index, KeyBack, n) == index - 1;
    } else {
      assert NextIndex(index, KeyBack, n) == n - 1;
    }
  }

  /** Every index the loop shows or reports lies in `[lo, n)`. */
  predicate ShownInRange(effects: seq<Effect>, lo: int, n: int) {
    forall j :: 0 <= j < |effects| ==>
      (effects[j].Show? ==> lo <= effects[j].index < n) && (effects[j].Report? ==> lo <= effects[j].index < n)
  }

  lemma ShownInRangeAppend(a: seq<Effect>, b: seq<Effect>, lo: int, n: int)
    requires ShownInRange(a, lo, n) && ShownInRange(b, lo, n)
    ensures ShownInRange(a + b, lo, n)
  {
    forall j | 0 <= j < |a + b|
      ensures ((a + b)[j].Show? ==> lo <= (a + b)[j].index < n) && ((a + b)[j].Report? ==> lo <= (a + b)[j].index < n)
    {
      if j >= |a| {
        assert (a + b)[j] == b[j - |a|];
      }
    }
  }

  /** From a valid index the session never raises, and every index it
      shows, reports or ends at lies in `[0, n)`, except that a negative
      starting index is kept, and shown, until a moving key or a missing
      file replaces it by its remainder. */
  lemma {:induction false} StaysInRange(s: Setup, index: int, keys: seq<int>, misses: nat)
    requires misses <= |s.images| && -|s.images| <= index < |s.images|
    ensures var r := Navigate(s, index, keys, misses);
      var lo := if index < 0 then index else 0;
      && !r.stop.Raised?
      && lo <= r.index < |s.images|
      && ShownInRange(r.effects, lo, |s.images|)
    decreases |keys|, |s.images| - misses
  {
    var n := |s.images|;
    var lo := if index < 0 then index else 0;
    var name := s.images[PyIndex(n, index).value];
    var path := PathJoin(s.datasetDir, name);
    if !s.isFile(path) {
      if misses + 1 < n {
        var rest := Navigate(s, PyMod(index + 1, n), keys, misses + 1);
        StaysInRange(s, PyMod(index + 1, n), keys, misses + 1);
        assert ShownInRange(rest.effects, lo, n);
        ShownInRangeAppend([NotFound(path)], rest.effects, lo, n);
      }
    } else if keys != [] && keys[0] != KeyQuit {
      var next := NextIndex(index, keys[0], n);
      var copied := if keys[0] == KeyFlag then [Copy(path, PathJoin(s.incorrectDir, name))] else [];
      var rest := Navigate(s, next, keys[1..], 0);
      StaysInRange(s, next, keys[1..], 0);
      assert ShownInRange(rest.effects, lo, n);
      assert ShownInRange([Show(index, name)] + copied, lo, n);
      ShownInRangeAppend([Show(index, name)] + copied, rest.effects, lo, n);
    }
  }

  /** `images[index]` fails only on the first lookup: the session raises
      `IndexError` exactly when the starting index is outside the list, which
      includes every index of an empty list. */
  lemma RaisesOnlyAtStart(s: Setup, start: int, keys: seq<int>)
    ensures Inspection(s, start, keys).stop.Raised? <==> !(-|s.images| <= start < |s.images|)
    ensures Inspection(s, start, keys).stop.Raised? ==> Inspection(s, start, keys) == Session(Raised(IndexError), start, [])
  {
    if -|s.images| <= start < |s.images| {
      StaysInRange(s, start, keys, 0);
    }
  }

  // ----- keys read, copies made, quitting ---------------------------------

  function Shows(effects: seq<Effect>): nat {
    if effects == [] then 0 else (if effects[0].Show? then 1 else 0) + Shows(effects[1..])
  }

  function Copies(effects: seq<Effect>): nat {
    if effects == [] then 0 else (if effects[0].Copy? then 1 else 0) + Copies(effects[1..])
  }

  /** The number of presses of `key` in `keys`. */
  function Presses(keys: seq<int>, key: int): nat {
    if keys == [] then 0 else (if keys[0] == key then 1 else 0) + Presses(keys[1..], key)
  }

  lemma {:induction false} CountsAppend(a: seq<Effect>, b: seq<Effect>)
    ensures Shows(a + b) == Shows(a) + Shows(b)
    ensures Copies(a + b) == Copies(a) + Copies(b)
    decreases |a|
  {
    if a == [] {
      assert a + b == b;
    } else {
      assert (a + b)[0] == a[0];
      assert (a + b)[1..] == a[1..] + b;
      CountsAppend(a[1..], b);
    }
  }

  /** What a session has read of its key stream: a key after each image
      shown and at no other time, so a missing file consumes no key; `w`
      copies once per press; the session quits at the first `q` and is left
      waiting only when the stream has none. */
  predicate ReadAsShown(keys: seq<int>, r: Session) {
    var t := Shows(r.effects);
    && t <= |keys| + 1
    && (r.stop == Waiting ==>
          t == |keys| + 1 && KeyQuit !in keys && Copies(r.effects) == Presses(keys, KeyFlag))
    && (r.stop == Quit ==>
          1 <= t <= |keys| && keys[t - 1] == KeyQuit && KeyQuit !in keys[..t - 1]
          && Copies(r.effects) == Presses(keys[..t - 1], KeyFlag))
  }

  lemma ReadAfterMiss(keys: seq<int>, path: string, rest: Session)
    requires ReadAsShown(keys, rest)
    ensures ReadAsShown(keys, Prepend([NotFound(path)], rest))
  {
    CountsAppend([NotFound(path)], rest.effects);
  }

  lemma ReadAfterKey(keys: seq<int>, front: seq<Effect>, rest: Session)
    requires keys != [] && keys[0] != KeyQuit
    requires Shows(front) == 1 && Copies(front) == if keys[0] == KeyFlag then 1 else 0
    requires ReadAsShown(keys[1..], rest)
    ensures ReadAsShown(keys, Prepend(front, rest))
  {
    var key := keys[0];
    CountsAppend(front, rest.effects);
    assert keys == [key] + keys[1..];
    if rest.stop == Quit {
      var t := Shows(rest.effects) + 1;
      var before := keys[..t - 1];
      assert before == [key] + keys[1..][..t - 2];
      assert before[0] == key && before[1..] == keys[1..][..t - 2];
      assert keys[t - 1] == keys[1..][t - 2];
    }
  }

  /** Every session reads its keys as `ReadAsShown` says. */
  lemma {:induction false} KeysRead(s: Setup, index: int, keys: seq<int>, misses: nat)
    requires misses <= |s.images|
    ensures ReadAsShown(keys, Navigate(s, index, keys, misses))
    decreases |keys|, |s.images| - misses
  {
    var n := |s.images|;
    match PyIndex(n, index)
    case None =>
    case Some(at) =>
      var name := s.images[at];
      var path := PathJoin(s.datasetDir, name);
      if !s.isFile(path) {
        if misses + 1 < n {
          KeysRead(s, PyMod(index + 1, n), keys, misses + 1);
          ReadAfterMiss(keys, path, Navigate(s, PyMod(index + 1, n), keys, misses + 1));
        }
      } else if keys == [] {
        assert Shows([Show(index, name)]) == 1;
      } else if keys[0] == KeyQuit {
        assert [Show(index, name), Report(index)][1..] == [Report(index)];
        assert [Report(index)][1..] == [];
        assert Shows([Report(index)]) == 0 && Copies([Report(index)]) == 0;
        assert Shows([Show(index, name), Report(index)]) == 1;
        assert Copies([Show(index, name), Report(index)]) == 0;
        assert keys[..0] == [];
      } else {
        var key := keys[0];
        var copied := if key == KeyFlag then [Copy(path, PathJoin(s.incorrectDir, name))] else [];
        KeysRead(s, NextIndex(index, key, n), keys[1..], 0);
        assert ([Show(index, name)] + copied)[1..] == copied;
        if key == KeyFlag {
          assert copied[1..] == [];
        }
        assert Shows(copied) == 0 && Copies(copied) == if key == KeyFlag then 1 else 0;
        assert Shows([Show(index, name)] + copied) == 1;
        ReadAfterKey(keys, [Show(index, name)] + copied, Navigate(s, NextIndex(index, key, n), keys[1..], 0));
      }
  }

  /** Every copy is of the image shown just before it, into the folder of
      wrongly labelled images under the same name; in particular no batch
      of effects starts with a copy. */
  predicate CopiesShown(s: Setup, effects: seq<Effect>) {
    forall j :: 0 <= j < |effects| && effects[j].Copy? ==>
      j > 0 && effects[j - 1].Show?
      && effects[j] == Copy(PathJoin(s.datasetDir, effects[j - 1].name), PathJoin(s.incorrectDir, effects[j - 1].name))
  }

  lemma CopiesShownAppend(s: Setup, a: seq<Effect>, b: seq<Effect>)
    requires CopiesShown(s, a) && CopiesShown(s, b)
    ensures CopiesShown(s, a + b)
  {
    var e := a + b;
    forall j | 0 <= j < |e| && e[j].Copy?
      ensures j > 0 && e[j - 1].Show?
        && e[j] == Copy(PathJoin(s.datasetDir, e[j - 1].name), PathJoin(s.incorrectDir, e[j - 1].name))
    {
      if j < |a| {
        assert e[j] == a[j] && e[j - 1] == a[j - 1];
      } else {
        assert e[j] == b[j - |a|];
        assert e[j - 1] == b[j - 1 - |a|];
      }
    }
  }

  lemma {:induction false} CopyFollowsShow(s: Setup, index: int, keys: seq<int>, misses: nat)
    requires misses <= |s.images|
    ensures CopiesShown(s, Navigate(s, index, keys, misses).effects)
    decreases |keys|, |s.images| - misses
  {
    var n := |s.images|;
    match PyIndex(n, index)
    case None =>
    case Some(at) =>
      var name := s.images[at];
      var path := PathJoin(s.datasetDir, name);
      if !s.isFile(path) {
        if misses + 1 < n {
          CopyFollowsShow(s, PyMod(index + 1, n), keys, misses + 1);
          CopiesShownAppend(s, [NotFound(path)], Navigate(s, PyMod(index + 1, n), keys, misses + 1).effects);
        }
      } else if keys != [] && keys[0] != KeyQuit {
        var key := keys[0];
        var front := [Show(index, name)] + if key == KeyFlag then [Copy(path, PathJoin(s.incorrectDir, name))] else [];
        CopyFollowsShow(s, NextIndex(index, key, n), keys[1..], 0);
        assert CopiesShown(s, front);
        CopiesShownAppend(s, front, Navigate(s, NextIndex(index, key, n), keys[1..], 0).effects);
      }
  }

  /** A session that quits ends with the image last shown and the report of
      its index, which is the index the session ends at. */
  predicate QuitsInPlace(r: Session) {
    r.stop == Quit ==>
      |r.effects| >= 2 && r.effects[|r.effects| - 1] == Report(r.index)
      && r.effects[|r.effects| - 2].Show? && r.effects[|r.effects| - 2].index == r.index
  }

  lemma QuitsInPlacePrepend(front: seq<Effect>, r: Session)
    requires QuitsInPlace(r)
    ensures QuitsInPlace(Prepend(front, r))
  {
    if r.stop == Quit {
      var e := front + r.effects;
      assert e[|e| - 1] == r.effects[|r.effects| - 1];
      assert e[|e| - 2] == r.effects[|r.effects| - 2];
    }
  }

  /** `q` ends the session where it stands. */
  lemma {:induction false} QuitKeepsIndex(s: Setup, index: int, keys: seq<int>, misses: nat)
    requires misses <= |s.images|
    ensures QuitsInPlace(Navigate(s, index, keys, misses))
    decreases |keys|, |s.images| - misses
  {
    var n := |s.images|;
    match PyIndex(n, index)
    case None =>
    case Some(at) =>
      var name := s.images[at];
      var path := PathJoin(s.datasetDir, name);
      if !s.isFile(path) {
        if misses + 1 < n {
          QuitKeepsIndex(s, PyMod(index + 1, n), keys, misses + 1);
          QuitsInPlacePrepend([NotFound(path)], Navigate(s, PyMod(index + 1, n), keys, misses + 1));
        }
      } else if keys != [] && keys[0] != KeyQuit {
        var key := keys[0];
        var front := [Show(index, name)] + if key == KeyFlag then [Copy(path, PathJoin(s.incorrectDir, name))] else [];
        QuitKeepsIndex(s, NextIndex(index, key, n), keys[1..], 0);
        QuitsInPlacePrepend(front, Navigate(s, NextIndex(index, key, n), keys[1..], 0));
      }
  }

  // ----- missing files ----------------------------------------------------

  /** How far position `p` lies behind position `at`, going round the list. */
  function Behind(at: int, p: int, n: int): (d: int)
    requires n > 0
    ensures 0 <= d < n
  {
    (at - p) % n
  }

  lemma BehindZero(at: int, p: int, n: int)
    requires 0 <= at < n && 0 <= p < n
    ensures Behind(at, p, n) == 0 <==> p == at
  {
    if at >= p {
      Arithmetic.DivModUnique(at - p, n, 0, at - p);
    } else {
      Arithmetic.DivModUnique(at - p, n, -1, at - p + n);
    }
  }

  /** One step forward adds one to every distance behind, except for the
      position just left, which comes to lie one behind. */
  lemma BehindStep(at: int, index: int, p: int, n: int)
    requires n > 1 && 0 <= at < n && (at == index || at == index + n) && 0 <= p < n
    ensures var d := Behind(PyMod(index + 1, n), p, n); d == 1 <==> p == at
    ensures var d := Behind(PyMod(index + 1, n), p, n); d > 1 ==> d == Behind(at, p, n) + 1
  {
    var next := PyMod(index + 1, n);
    // next == (at + 1) % n
    if at + 1 < n {
      assert next == at + 1 by {
        if at == index + n {
          Arithmetic.DivModUnique(index + 1, n, -1, at + 1);
        }
      }
    } else {
      assert next == 0 by {
        assert at == n - 1;
        if at == index {
          Arithmetic.DivModUnique(index + 1, n, 1, 0);
        } else {
          Arithmetic.DivModUnique(index + 1, n, 0, 0);
        }
      }
    }
    // Behind(next, p) == (at - p + 1) % n
    var q := (at + 1) / n;
    Arithmetic.DivModUnique(at + 1, n, if at + 1 < n then 0 else 1, if at + 1 < n then at + 1 else 0);
    assert next - p == n * (-q) + (at - p + 1);
    Arithmetic.ModAddMultiple(at - p + 1, n, -q);
    Arithmetic.ModSucc(at - p, n);
    BehindZero(at, p, n);
    if p == at {
      Arithmetic.DivModUnique(1, n, 0, 1);
    }
  }

  /** The positions `1 .. misses` behind `index` are all missing. */
  predicate MissedBehind(s: Setup, at: int, misses: nat)
    requires 0 <= at < |s.images|
  {
    forall p :: 0 <= p < |s.images| && 1 <= Behind(at, p, |s.images|) <= misses ==> !Present(s, p)
  }

  /** A session spins only when every file of the list is missing. */
  lemma {:induction false} SpinningMeansAllMissing(s: Setup, index: int, keys: seq<int>, misses: nat)
    requires misses <= |s.images|
    requires -|s.images| <= index < |s.images|
    requires MissedBehind(s, PyIndex(|s.images|, index).value, misses)
    ensures Navigate(s, index, keys, misses).stop == Spinning ==>
      forall p :: 0 <= p < |s.images| ==> !Present(s, p)
    decreases |keys|, |s.images| - misses
  {
    var n := |s.images|;
    var at := PyIndex(n, index).value;
    var name := s.images[at];
    var path := PathJoin(s.datasetDir, name);
    if !s.isFile(path) {
      assert !Present(s, at);
      if misses + 1 >= n {
        forall p | 0 <= p < n ensures !Present(s, p) {
          BehindZero(at, p, n);
        }
      } else {
        var next := PyMod(index + 1, n);
        forall p | 0 <= p < n && 1 <= Behind(next, p, n) <= misses + 1 ensures !Present(s, p) {
          BehindStep(at, index, p, n);
        }
        SpinningMeansAllMissing(s, next, keys, misses + 1);
      }
    } else if keys != [] && keys[0] != KeyQuit {
      var next := NextIndex(index, keys[0], n);
      SpinningMeansAllMissing(s, next, keys[1..], 0);
    }
  }

  /** When every file is missing, the session skips through the list without
      reading a key. */
  lemma {:induction false} AllMissingSpins(s: Setup, index: int, keys: seq<int>, misses: nat)
    requires misses <= |s.images|
    requires -|s.images| <= index < |s.images|
    requires forall p :: 0 <= p < |s.images| ==> !Present(s, p)
    ensures Navigate(s, index, keys, misses).stop == Spinning
    ensures Shows(Navigate(s, index, keys, misses).effects) == 0
    decreases |s.images| - misses
  {
    var n := |s.images|;
    var at := PyIndex(n, index).value;
    assert !Present(s, at);
    if misses + 1 < n {
      var path := PathJoin(s.datasetDir, s.images[at]);
      AllMissingSpins(s, PyMod(index + 1, n), keys, misses + 1);
      CountsAppend([NotFound(path)], Navigate(s, PyMod(index + 1, n), keys, misses + 1).effects);
    }
  }

  /** The session spins forever exactly when the list is not empty, the
      starting index is inside it, and none of its files exists. */
  lemma SpinsIffAllMissing(s: Setup, start: int, keys: seq<int>)
    ensures Inspection(s, start, keys).stop == Spinning <==>
      -|s.images| <= start < |s.images| && forall p :: 0 <= p < |s.images| ==> !Present(s, p)
  {
    if -|s.images| <= start < |s.images| {
      SpinningMeansAllMissing(s, start, keys, 0);
      if forall p :: 0 <= p < |s.images| ==> !Present(s, p) {
        AllMissingSpins(s, start, keys, 0);
      }
    }
  }
}
