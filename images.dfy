/** Image items and the list operations the sidebar code applies to them. */
module Images {
  import opened Wrappers

  /** One uploaded or captured image. Equality of two items is equality of
      this record, which stands for the equality of the upload objects. */
  datatype Image = Image(id: nat, name: string)

  /** The current input list of one rerun: the uploaded files, in widget
      order, followed by the camera capture when there is one. */
  function CurrentInputs(uploads: seq<Image>, camera: Option<Image>): (current: seq<Image>)
    ensures |uploads| <= |current| && current[..|uploads|] == uploads
    ensures camera.None? ==> |current| == |uploads|
    ensures camera.Some? ==> |current| == |uploads| + 1 && current[|uploads|] == camera.value
  {
    match camera
    case None => uploads
    case Some(cam) => uploads + [cam]
  }

  /** `a` is obtained from `b` by deleting some elements, keeping the order of the rest. */
  ghost predicate SubseqOf<T>(a: seq<T>, b: seq<T>)
    decreases |b|
  {
    a == [] ||
    (b != [] && ((a[0] == b[0] && SubseqOf(a[1..], b[1..])) || SubseqOf(a, b[1..])))
  }

  lemma {:induction false} SubseqRefl<T>(s: seq<T>)
    ensures SubseqOf(s, s)
    decreases |s|
  {
    if s != [] {
      SubseqRefl(s[1..]);
    }
  }

  lemma {:induction false} SubseqTrans<T>(a: seq<T>, b: seq<T>, c: seq<T>)
    requires SubseqOf(a, b) && SubseqOf(b, c)
    ensures SubseqOf(a, c)
    decreases |c|
  {
    if a != [] {
      assert b != [] && c != [];
      if SubseqOf(b, c[1..]) {
        SubseqTrans(a, b, c[1..]);
      } else {
        assert b[0] == c[0] && SubseqOf(b[1..], c[1..]);
        if a[0] == b[0] && SubseqOf(a[1..], b[1..]) {
          SubseqTrans(a[1..], b[1..], c[1..]);
        } else {
          SubseqTrans(a, b[1..], c[1..]);
        }
      }
    }
  }

  /** Deleting the element at index j leaves an order-preserving subsequence. */
  lemma {:induction false} DeleteAtIsSubseq<T>(s: seq<T>, j: nat)
    requires j < |s|
    ensures SubseqOf(s[..j] + s[j + 1..], s)
    decreases j
  {
    if j == 0 {
      assert s[..0] + s[1..] == s[1..];
      SubseqRefl(s[1..]);
    } else {
      var d := s[..j] + s[j + 1..];
      DeleteAtIsSubseq(s[1..], j - 1);
      assert d[0] == s[0];
      assert d[1..] == s[1..][..j - 1] + s[1..][j..];
    }
  }

  /** No image occurs twice. */
  ghost predicate NoDup<T>(s: seq<T>) {
    forall i, j :: 0 <= i < j < |s| ==> s[i] != s[j]
  }

  /** Index of the first element equal to x. */
  function FirstIndex<T(==)>(s: seq<T>, x: T): (j: nat)
    requires x in s
    ensures j < |s| && s[j] == x
    ensures forall k :: 0 <= k < j ==> s[k] != x
  {
    if s[0] == x then 0 else 1 + FirstIndex(s[1..], x)
  }

  /** Python's `list.remove(x)`: deletes the first element equal to x
      (the caller guarantees x is present, so no ValueError arises). */
  function RemoveFirst<T(==)>(s: seq<T>, x: T): (r: seq<T>)
    requires x in s
    ensures |r| == |s| - 1
    ensures multiset(r) == multiset(s) - multiset{x}
  {
    var j := FirstIndex(s, x);
    assert s == s[..j] + [s[j]] + s[j + 1..];
    s[..j] + s[j + 1..]
  }

  /** Slots before the first occurrence keep their element; later slots take
      their right neighbour's. */
  lemma RemoveFirstShift<T>(s: seq<T>, x: T, k: nat)
    requires x in s && k < |s| - 1
    ensures RemoveFirst(s, x)[k] == if k < FirstIndex(s, x) then s[k] else s[k + 1]
  {
  }

  /** `list.remove` keeps the order of the elements it leaves. */
  lemma RemoveFirstIsSubseq<T>(s: seq<T>, x: T)
    requires x in s
    ensures SubseqOf(RemoveFirst(s, x), s)
  {
    DeleteAtIsSubseq(s, FirstIndex(s, x));
  }

  /** In a list without duplicates, removing the element at index k
      deletes exactly that slot and leaves a list without duplicates. */
  lemma RemoveFirstNoDup<T>(s: seq<T>, k: nat)
    requires NoDup(s) && k < |s|
    ensures RemoveFirst(s, s[k]) == s[..k] + s[k + 1..]
    ensures NoDup(RemoveFirst(s, s[k]))
    ensures s[k] !in RemoveFirst(s, s[k])
  {
    var j := FirstIndex(s, s[k]);
    assert j == k;
    var r := s[..k] + s[k + 1..];
    forall a, b | 0 <= a < b < |r| ensures r[a] != r[b] {
      var a' := if a < k then a else a + 1;
      var b' := if b < k then b else b + 1;
      assert r[a] == s[a'] && r[b] == s[b'];
    }
    forall a | 0 <= a < |r| ensures r[a] != s[k] {
      var a' := if a < k then a else a + 1;
      assert r[a] == s[a'];
    }
  }
}
