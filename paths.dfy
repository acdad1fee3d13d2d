/** The POSIX `os.path` operations the scripts use: `join` of two parts,
    the tail of `split`, and `splitext`, plus the numbered image names
    "{prefix}_{n}.jpg" that the video pipeline writes and parses back. */
module Paths {
  import opened Common
  import opened Text

  const Slash: char := '/'
  const Dot: char := '.'
  const Underscore: char := '_'
  const JpgExtension: string := ".jpg"

  /** `os.path.join(a, b)`: an absolute `b` replaces `a`; otherwise a slash
      is inserted unless `a` is empty or already ends with one. */
  function PathJoin(a: string, b: string): (p: string)
    ensures |b| > 0 && b[0] == Slash ==> p == b
    ensures (|b| == 0 || b[0] != Slash) ==> |p| >= |b| && p[|p| - |b|..] == b
  {
    if |b| > 0 && b[0] == Slash then b
    else if a == [] || a[|a| - 1] == Slash then a + b
    else a + [Slash] + b
  }

  /** The tail returned by `os.path.split(p)`: everything after the last slash. */
  function BaseName(p: string): (tail: string)
    ensures forall k :: 0 <= k < |tail| ==> tail[k] != Slash
  {
    p[LastIndexOf(p, Slash) + 1..]
  }

  /** True when some character of `p[lo..hi]` is not a dot. */
  predicate HasNonDot(p: string, lo: int, hi: int)
    requires 0 <= lo && hi <= |p|
  {
    exists k :: lo <= k < hi && p[k] != Dot
  }

  /** `os.path.splitext(p)`: the extension starts at the last dot of the last
      path component, unless that component consists of dots up to it
      (leading dots, as in ".bashrc", do not start an extension). */
  function SplitExt(p: string): (r: (string, string))
    ensures r.0 + r.1 == p
    ensures r.1 == [] || r.1[0] == Dot
  {
    var sepIndex := LastIndexOf(p, Slash);
    var dotIndex := LastIndexOf(p, Dot);
    if dotIndex > sepIndex && HasNonDot(p, sepIndex + 1, dotIndex) then
      assert p[..dotIndex] + p[dotIndex..] == p;
      (p[..dotIndex], p[dotIndex..])
    else (p, "")
  }

  /** The name `"{}_{}.jpg".format(prefix, n)`. */
  function NumberedName(prefix: string, n: nat): string {
    prefix + [Underscore] + NatToString(n) + JpgExtension
  }

  /** What `process_frame_batch` recovers from a saved path: it drops the
      extension with `splitext`, takes the last "_"-separated field as the
      counter and re-joins the other fields as the prefix. A counter field
      that is not a decimal number raises ValueError. */
  function ParseNumberedName(path: string): (r: Result<(string, nat)>)
    ensures var fields := Split(SplitExt(path).0, Underscore);
            var last := fields[|fields| - 1];
            && (r.Err? <==> !(|last| > 0 && AllDigits(last)))
            && (r.Err? ==> r.error.ValueError?)
            && (r.Ok? ==> r.value == (Join(Underscore, fields[..|fields| - 1]), DigitsValue(last)))
  {
    var root := SplitExt(path).0;
    var fields := Split(root, Underscore);
    var counter := ParseNat(fields[|fields| - 1]);
    if counter.None? then Err(ValueError("invalid literal for int()"))
    else Ok((Join(Underscore, fields[..|fields| - 1]), counter.value))
  }

  lemma NoSpecialInNumber(n: nat)
    ensures Slash !in NatToString(n) && Dot !in NatToString(n) && Underscore !in NatToString(n)
  {
    var s := NatToString(n);
    assert forall i :: 0 <= i < |s| ==> IsDigit(s[i]);
  }

  /** The last dot of a numbered name is the one of ".jpg". */
  lemma NumberedNameLastDot(prefix: string, n: nat)
    ensures LastIndexOf(NumberedName(prefix, n), Dot) == |prefix| + 1 + |NatToString(n)|
  {
    var p := NumberedName(prefix, n);
    var i := |prefix| + 1 + |NatToString(n)|;
    assert p[i] == Dot;
    assert forall j :: i < j < |p| ==> p[j] != Dot;
    LastIndexOfAt(p, Dot, i);
  }

  /** The last slash of a numbered name lies inside its prefix. */
  lemma NumberedNameLastSlash(prefix: string, n: nat)
    ensures LastIndexOf(NumberedName(prefix, n), Slash) == LastIndexOf(prefix, Slash)
  {
    var tail := [Underscore] + NatToString(n) + JpgExtension;
    NoSpecialInNumber(n);
    assert Slash !in tail;
    assert NumberedName(prefix, n) == prefix + tail;
    LastIndexOfAppend(prefix, tail, Slash);
  }

  /** `splitext` removes exactly the ".jpg" of a numbered name. */
  lemma SplitExtNumberedName(prefix: string, n: nat)
    ensures SplitExt(NumberedName(prefix, n)) == (prefix + [Underscore] + NatToString(n), JpgExtension)
  {
    var stem := prefix + [Underscore] + NatToString(n);
    var p := NumberedName(prefix, n);
    NumberedNameLastDot(prefix, n);
    NumberedNameLastSlash(prefix, n);
    // the underscore is a non-dot character of the file name before the dot
    assert p[|prefix|] == Underscore;
    assert HasNonDot(p, LastIndexOf(p, Slash) + 1, |stem|);
    assert p[..|stem|] == stem;
    assert p[|stem|..] == JpgExtension;
  }

  /** Parsing a numbered name returns exactly the prefix and the counter it
      was formatted from, even when the prefix itself contains "_", "." or
      "/". */
  lemma ParseNumberedNameRoundTrip(prefix: string, n: nat)
    ensures ParseNumberedName(NumberedName(prefix, n)) == Ok((prefix, n))
  {
    SplitExtNumberedName(prefix, n);
    NoSpecialInNumber(n);
    var digits := NatToString(n);
    SplitAppend(prefix, Underscore, digits);
    var fields := Split(prefix + [Underscore] + digits, Underscore);
    assert fields == Split(prefix, Underscore) + [digits];
    assert fields[..|fields| - 1] == Split(prefix, Underscore);
    JoinSplit(prefix, Underscore);
    ParseNatToString(n);
  }

  /** Numbered names with different counters are different. */
  lemma NumberedNameInjective(p: string, m: nat, q: string, n: nat)
    requires NumberedName(p, m) == NumberedName(q, n)
    ensures p == q && m == n
  {
    ParseNumberedNameRoundTrip(p, m);
    ParseNumberedNameRoundTrip(q, n);
  }

  /** Joining a directory with a numbered file name is the numbered name of
      the joined prefix, so the prefix recovered later is `join(dir, name)`. */
  lemma JoinNumberedName(dir: string, name: string, n: nat)
    requires Slash !in name
    ensures PathJoin(dir, NumberedName(name, n)) == NumberedName(PathJoin(dir, name), n)
  {
    var b := NumberedName(name, n);
    if |name| > 0 {
      assert name[0] in name;
      assert b[0] == name[0];
    } else {
      assert b[0] == Underscore;
    }
  }
}
