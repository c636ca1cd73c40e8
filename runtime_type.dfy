/**
 * The runtime type name that containerd matches on is derived from the
 * shim binary's file name: the first "containerd-shim-" becomes
 * "io.containerd.", then every '-' becomes '.'.
 */
module RuntimeType {

  const ShimMarker: string := "containerd-shim-"
  const TypePrefix: string := "io.containerd."

  /** `pat` occurs in `s` starting at index `i`. */
  predicate Occurs(s: string, pat: string, i: nat) {
    i + |pat| <= |s| && s[i..i + |pat|] == pat
  }

  /**
   * strings.Replace(s, pat, rep, 1): the first occurrence of `pat` is
   * replaced by `rep`; an empty `pat` matches at the very start.
   */
  function ReplaceFirst(s: string, pat: string, rep: string): string
    decreases |s|
  {
    if pat <= s then rep + s[|pat|..]
    else if s == [] then s
    else [s[0]] + ReplaceFirst(s[1..], pat, rep)
  }

  /** strings.Replace(s, [c], [d], -1) for one-character strings: every `c` becomes `d`. */
  function ReplaceEvery(s: string, c: char, d: char): (r: string)
    ensures |r| == |s|
    ensures forall i :: 0 <= i < |s| ==> r[i] == (if s[i] == c then d else s[i])
    decreases |s|
  {
    if s == [] then [] else [if s[0] == c then d else s[0]] + ReplaceEvery(s[1..], c, d)
  }

  /** The part of a slash-separated path after its last '/'. */
  function Base(path: string): string
    decreases |path|
  {
    if path == [] then []
    else if path[|path| - 1] == '/' then []
    else Base(path[..|path| - 1]) + [path[|path| - 1]]
  }

  /** The runtime_type written for a shim whose file name is `base`. */
  function RuntimeTypeOf(base: string): string {
    ReplaceEvery(ReplaceFirst(base, ShimMarker, TypePrefix), '-', '.')
  }

  // ---------------------------------------------------------------------
  // Properties of the string transforms
  // ---------------------------------------------------------------------

  /** An occurrence of `pat` at index 0 is `pat` being a prefix. */
  lemma OccursAtStart(s: string, pat: string)
    ensures Occurs(s, pat, 0) <==> pat <= s
  {
  }

  /** Occurrences in the tail of `s` are those of `s`, one index further on. */
  lemma OccursInTail(s: string, pat: string, j: nat)
    requires s != []
    ensures Occurs(s, pat, j + 1) <==> Occurs(s[1..], pat, j)
  {
    if j + 1 + |pat| <= |s| {
      assert s[1..][j..j + |pat|] == s[j + 1..j + 1 + |pat|];
    }
  }

  /** Without any occurrence of `pat`, ReplaceFirst leaves the string alone. */
  lemma {:induction false} ReplaceFirstNoMatch(s: string, pat: string, rep: string)
    requires forall i: nat :: i <= |s| ==> !Occurs(s, pat, i)
    ensures ReplaceFirst(s, pat, rep) == s
    decreases |s|
  {
    OccursAtStart(s, pat);
    if s != [] {
      forall i: nat | i <= |s| - 1 ensures !Occurs(s[1..], pat, i) {
        OccursInTail(s, pat, i);
      }
      ReplaceFirstNoMatch(s[1..], pat, rep);
    }
  }

  /** ReplaceFirst rewrites exactly the first occurrence of `pat`. */
  lemma {:induction false} ReplaceFirstAt(s: string, pat: string, rep: string, i: nat)
    requires Occurs(s, pat, i)
    requires forall j: nat :: j < i ==> !Occurs(s, pat, j)
    ensures ReplaceFirst(s, pat, rep) == s[..i] + rep + s[i + |pat|..]
    decreases |s|
  {
    OccursAtStart(s, pat);
    if i > 0 {
      var t := s[1..];
      OccursInTail(s, pat, i - 1);
      forall j: nat | j < i - 1 ensures !Occurs(t, pat, j) {
        OccursInTail(s, pat, j);
      }
      ReplaceFirstAt(t, pat, rep, i - 1);
      calc {
        ReplaceFirst(s, pat, rep);
        [s[0]] + ReplaceFirst(t, pat, rep);
        [s[0]] + (t[..i - 1] + rep + t[i - 1 + |pat|..]);
        { assert [s[0]] + t[..i - 1] == s[..i]; assert t[i - 1 + |pat|..] == s[i + |pat|..]; }
        s[..i] + rep + s[i + |pat|..];
      }
    }
  }

  /** Replacing characters works piecewise over a concatenation. */
  lemma ReplaceEveryAppend(a: string, b: string, c: char, d: char)
    ensures ReplaceEvery(a + b, c, d) == ReplaceEvery(a, c, d) + ReplaceEvery(b, c, d)
  {
    var l, r := ReplaceEvery(a + b, c, d), ReplaceEvery(a, c, d) + ReplaceEvery(b, c, d);
    assert |l| == |r|;
    forall i | 0 <= i < |l| ensures l[i] == r[i] {
      if i < |a| {
        assert (a + b)[i] == a[i];
      } else {
        assert (a + b)[i] == b[i - |a|];
      }
    }
  }

  /** A string without `c` is left alone. */
  lemma ReplaceEveryAbsent(s: string, c: char, d: char)
    requires c !in s
    ensures ReplaceEvery(s, c, d) == s
  {
  }

  /** The derived type never contains a '-'. */
  lemma RuntimeTypeHasNoDash(base: string)
    ensures '-' !in RuntimeTypeOf(base)
  {
  }

  /** Without "containerd-shim-" the type is the name with every '-' turned into '.'. */
  lemma RuntimeTypeWithoutMarker(base: string)
    requires forall i: nat :: i <= |base| ==> !Occurs(base, ShimMarker, i)
    ensures RuntimeTypeOf(base) == ReplaceEvery(base, '-', '.')
  {
    ReplaceFirstNoMatch(base, ShimMarker, TypePrefix);
  }

  /** Replacing the first `pat` by a `c`-free `rep` and then every `c` by `d` treats the two sides apart. */
  lemma ReplaceFirstThenEvery(s: string, pat: string, rep: string, i: nat, c: char, d: char)
    requires Occurs(s, pat, i)
    requires forall j: nat :: j < i ==> !Occurs(s, pat, j)
    requires c !in rep
    ensures ReplaceEvery(ReplaceFirst(s, pat, rep), c, d)
         == ReplaceEvery(s[..i], c, d) + rep + ReplaceEvery(s[i + |pat|..], c, d)
  {
    ReplaceFirstAt(s, pat, rep, i);
    ReplaceEveryAppend(s[..i] + rep, s[i + |pat|..], c, d);
    ReplaceEveryAppend(s[..i], rep, c, d);
    ReplaceEveryAbsent(rep, c, d);
  }

  /**
   * With its first "containerd-shim-" at index `i`, the type is the part
   * before it, then "io.containerd.", then the part after it, with every
   * '-' of the two parts turned into '.'.
   */
  lemma RuntimeTypeAtMarker(base: string, i: nat)
    requires Occurs(base, ShimMarker, i)
    requires forall j: nat :: j < i ==> !Occurs(base, ShimMarker, j)
    ensures RuntimeTypeOf(base)
         == ReplaceEvery(base[..i], '-', '.') + TypePrefix + ReplaceEvery(base[i + |ShimMarker|..], '-', '.')
  {
    assert '-' !in TypePrefix;
    ReplaceFirstThenEvery(base, ShimMarker, TypePrefix, i, '-', '.');
  }

  /** A shim named "containerd-shim-" + rest gets type "io.containerd." + rest with '-' turned into '.'. */
  lemma RuntimeTypeOfShim(rest: string)
    ensures RuntimeTypeOf(ShimMarker + rest) == TypePrefix + ReplaceEvery(rest, '-', '.')
  {
    var base := ShimMarker + rest;
    assert base[0..|ShimMarker|] == ShimMarker;
    RuntimeTypeAtMarker(base, 0);
    assert base[..0] == [];
    assert base[|ShimMarker|..] == rest;
  }

  /** The runc v2 shim, containerd-shim-runc-v2, registers as io.containerd.runc.v2. */
  lemma RuntimeTypeOfRuncV2()
    ensures RuntimeTypeOf(ShimMarker + "runc-v2") == TypePrefix + "runc.v2"
  {
    RuntimeTypeOfShim("runc-v2");
    RuncV2Dotted();
  }

  /** The one '-' of "runc-v2" becomes '.'. */
  lemma RuncV2Dotted()
    ensures ReplaceEvery("runc-v2", '-', '.') == "runc.v2"
  {
  }

  /**
   * The base name contains no '/', is a suffix of the path, and is the
   * longest such suffix: it is the whole path or follows a '/'.
   */
  lemma {:induction false} BaseIsLastComponent(path: string)
    ensures '/' !in Base(path)
    ensures |Base(path)| <= |path| && Base(path) == path[|path| - |Base(path)|..]
    ensures |Base(path)| == |path| || path[|path| - |Base(path)| - 1] == '/'
    decreases |path|
  {
    if path != [] && path[|path| - 1] != '/' {
      var init := path[..|path| - 1];
      BaseIsLastComponent(init);
      var last := path[|path| - 1];
      var b := Base(init);
      assert Base(path) == b + [last];
      var k := |init| - |b|;
      assert path == init + [last];
      assert path[k..] == init[k..] + [last];
      if |b| < |init| {
        assert path[k - 1] == init[k - 1];
      }
    }
  }

  /** The base name of dir + "/" + file is file, when file has no '/'. */
  lemma {:induction false} BaseOfJoin(dir: string, file: string)
    requires '/' !in file
    ensures Base(dir + "/" + file) == file
    decreases |file|
  {
    var p := dir + "/" + file;
    if file == [] {
      assert p[|p| - 1] == '/';
    } else {
      var init := file[..|file| - 1];
      assert p[..|p| - 1] == dir + "/" + init;
      assert p[|p| - 1] == file[|file| - 1];
      BaseOfJoin(dir, init);
      assert init + [file[|file| - 1]] == file;
    }
  }
}
