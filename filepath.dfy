/** Go's `filepath.Join` for a directory and a plain file name, on '/'-separated paths. */
module FilePath {

  const Separator: char := '/'

  /**
   * `filepath.Join(dir, name)`: the name on its own when the directory is
   * empty, otherwise the directory and the name with one separator between.
   */
  function Join(dir: string, name: string): (p: string)
    ensures |p| >= |name| && p[|p| - |name|..] == name
    ensures |p| >= |dir| + |name| && p[..|dir|] == dir
    ensures |p| == |dir| + |name| + (if dir == [] || dir[|dir| - 1] == Separator then 0 else 1)
    ensures |p| == |dir| + |name| + 1 ==> p[|dir|] == Separator
  {
    if dir == [] then name
    else if dir[|dir| - 1] == Separator then dir + name
    else dir + [Separator] + name
  }

  /** The part of `p` after its last separator (the whole of `p` if it has none). */
  function LastElement(p: string): string
    decreases |p|
  {
    if p == [] || p[|p| - 1] == Separator then []
    else LastElement(p[..|p| - 1]) + [p[|p| - 1]]
  }

  /** When the last `k` characters hold no separator and a separator (or nothing) precedes them, they are the last element. */
  lemma {:induction false} LastElementAfterSeparator(p: string, k: nat)
    requires k <= |p|
    requires k == |p| || p[|p| - k - 1] == Separator
    requires forall i :: |p| - k <= i < |p| ==> p[i] != Separator
    ensures LastElement(p) == p[|p| - k..]
    decreases k
  {
    if k > 0 {
      var q := p[..|p| - 1];
      assert forall i :: |q| - (k - 1) <= i < |q| ==> q[i] == p[i];
      LastElementAfterSeparator(q, k - 1);
      assert q[|q| - (k - 1)..] + [p[|p| - 1]] == p[|p| - k..];
    }
  }

  /** A file name joined onto any directory is the last element of the joined path. */
  lemma LastElementOfJoin(dir: string, name: string)
    requires Separator !in name
    ensures LastElement(Join(dir, name)) == name
  {
    var p := Join(dir, name);
    var k := |name|;
    assert p[|p| - k..] == name;
    forall i | |p| - k <= i < |p| ensures p[i] != Separator {
      assert p[i] == name[i - (|p| - k)];
    }
    LastElementAfterSeparator(p, k);
  }
}
