/**
 * The POSIX path operations the games' path helpers rely on, as Python's
 * posixpath module defines them on strings: join appends each part after a
 * '/' unless the path so far is empty or already ends in one, and restarts
 * from any part that is absolute; dirname keeps everything before the last
 * '/' and drops the trailing slashes, unless the head is made of slashes alone.
 */
module Paths {
  const Sep: char := '/'

  predicate StartsWithSep(s: string) { |s| > 0 && s[0] == Sep }

  predicate EndsWithSep(s: string) { |s| > 0 && s[|s| - 1] == Sep }

  predicate NoSep(s: string) { forall i :: 0 <= i < |s| ==> s[i] != Sep }

  /** posixpath.join(a, b). */
  function Join(a: string, b: string): (r: string)
    ensures StartsWithSep(b) ==> r == b
    ensures !StartsWithSep(b) ==> (r == a + b || r == a + [Sep] + b)
    ensures !StartsWithSep(b) && a != [] && !EndsWithSep(a) ==> r == a + [Sep] + b
  {
    if StartsWithSep(b) then b
    else if a == [] || EndsWithSep(a) then a + b
    else a + [Sep] + b
  }

  /** Whatever the first part, the joined path ends with the second part. */
  lemma JoinEndsWith(a: string, b: string)
    ensures |b| <= |Join(a, b)| && Join(a, b)[|Join(a, b)| - |b|..] == b
  {
    var r := Join(a, b);
    if !StartsWithSep(b) {
      assert r == (r[..|r| - |b|]) + b;
    }
  }

  /** posixpath.join(a, *parts): the parts are joined on from left to right. */
  function JoinAll(a: string, parts: seq<string>): (r: string)
  {
    if parts == [] then a else Join(JoinAll(a, parts[..|parts| - 1]), parts[|parts| - 1])
  }

  /** The path with every trailing '/' removed: str.rstrip('/'). */
  function RStripSep(s: string): (r: string)
    ensures r <= s && (r == [] || !EndsWithSep(r))
    ensures forall i :: |r| <= i < |s| ==> s[i] == Sep
  {
    if EndsWithSep(s) then RStripSep(s[..|s| - 1]) else s
  }

  /** The length of the head: one past the last '/', or 0 when there is none. */
  function HeadLength(p: string): (n: nat)
    ensures n <= |p|
    ensures n > 0 ==> p[n - 1] == Sep
    ensures NoSep(p[n..])
  {
    if p == [] then 0
    else if p[|p| - 1] == Sep then |p|
    else
      var n := HeadLength(p[..|p| - 1]);
      assert p[n..] == p[..|p| - 1][n..] + [p[|p| - 1]];
      n
  }

  predicate AllSep(s: string) { forall i :: 0 <= i < |s| ==> s[i] == Sep }

  /** posixpath.dirname(p). */
  function Dirname(p: string): (r: string)
    ensures r <= p
  {
    var head := p[..HeadLength(p)];
    if head != [] && !AllSep(head) then RStripSep(head) else head
  }

  /** The parts of a relative path written one after another, each after a '/'. */
  function Slashed(parts: seq<string>): string
  {
    if parts == [] then [] else Slashed(parts[..|parts| - 1]) + [Sep] + parts[|parts| - 1]
  }

  /** A name that is not empty and holds no '/'. */
  predicate PlainName(s: string) { s != [] && NoSep(s) }

  /** A path that does not end in '/' joined with plain names is the path followed
      by '/' and each name in turn. */
  lemma {:induction false} JoinAllPlain(a: string, parts: seq<string>)
    requires a != [] && !EndsWithSep(a)
    requires forall i :: 0 <= i < |parts| ==> PlainName(parts[i])
    ensures JoinAll(a, parts) == a + Slashed(parts)
  {
    if parts != [] {
      var init, last := parts[..|parts| - 1], parts[|parts| - 1];
      JoinAllPlain(a, init);
      assert PlainName(last);
      SlashedEnd(a, init);
      assert !StartsWithSep(last) by {
        assert last[0] != Sep;
      }
      calc {
        JoinAll(a, parts);
        Join(a + Slashed(init), last);
        a + Slashed(init) + [Sep] + last;
        { Associate(a, Slashed(init) + [Sep], last); }
        a + (Slashed(init) + [Sep] + last);
      }
    }
  }

  lemma Associate(a: string, b: string, c: string)
    ensures a + b + c == a + (b + c)
  {
  }

  /** A path that does not end in '/', followed by '/' and plain names, does not
      end in '/' either. */
  lemma SlashedEnd(a: string, parts: seq<string>)
    requires a != [] && !EndsWithSep(a)
    requires parts != [] ==> PlainName(parts[|parts| - 1])
    ensures a + Slashed(parts) != [] && !EndsWithSep(a + Slashed(parts))
  {
    if parts != [] {
      var last, s := parts[|parts| - 1], Slashed(parts);
      assert s == Slashed(parts[..|parts| - 1]) + [Sep] + last;
      assert s[|s| - 1] == last[|last| - 1];
      assert (a + s)[|a + s| - 1] == s[|s| - 1];
    }
  }

  /** dirname undoes a join with a name that holds no '/'. */
  lemma DirnameOfJoin(d: string, name: string)
    requires d != [] && !EndsWithSep(d) && NoSep(name)
    ensures Dirname(Join(d, name)) == d
  {
    var p := d + [Sep] + name;
    assert !StartsWithSep(name);
    assert p[|d| + 1..] == name;
    HeadAfterLastSep(p, |d|);
    assert p[..|d| + 1] == d + [Sep];
    assert !AllSep(d + [Sep]) by {
      assert (d + [Sep])[|d| - 1] == d[|d| - 1] != Sep;
    }
    StripOneSep(d);
  }

  lemma HeadAfterLastSep(p: string, k: nat)
    requires k < |p| && p[k] == Sep && NoSep(p[k + 1..])
    ensures HeadLength(p) == k + 1
    decreases |p|
  {
    if p[|p| - 1] != Sep {
      var q := p[..|p| - 1];
      assert q[k] == Sep;
      assert NoSep(q[k + 1..]) by {
        forall j | k + 1 <= j < |q|
          ensures q[j] != Sep
        {
          assert q[j] == p[k + 1..][j - (k + 1)];
        }
      }
      HeadAfterLastSep(q, k);
    }
  }

  lemma StripOneSep(d: string)
    requires d != [] && !EndsWithSep(d)
    ensures RStripSep(d + [Sep]) == d
  {
    assert (d + [Sep])[..|d|] == d;
  }
}
