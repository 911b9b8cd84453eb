/** The gallery's layout rules: images are dealt round-robin into a fixed
    number of columns, the column set is rendered twice in a row so that the
    scrolling strip can loop, and the scroll lasts a fixed number of seconds
    per image. */
module Layout {

  /** An image reference (a URL) as listed in the manifest. */
  type ImageSource = string

  /** Number of columns the images are dealt into. */
  const Columns: nat := 4

  /** Seconds of scrolling given to each image of the manifest. */
  const SecondsPerImage: nat := 3

  /** Number of images that column c receives out of n: the number of
      indices below n that are congruent to c modulo Columns. */
  function ColumnLength(n: nat, c: nat): (len: nat)
    requires c < Columns
  {
    (n + Columns - 1 - c) / Columns
  }

  /** Slot k of column c exists exactly when index c + Columns * k is one of
      the n images. */
  lemma SlotInRange(n: nat, c: nat, k: nat)
    requires c < Columns
    ensures k < ColumnLength(n, c) <==> c + Columns * k < n
  {
  }

  /** Column c gets the images at indices c, c + Columns, c + 2 * Columns, ...,
      in input order: the functional counterpart of the dealing loop. */
  function Column(images: seq<ImageSource>, c: nat): (column: seq<ImageSource>)
    requires c < Columns
  {
    seq(ColumnLength(|images|, c), k requires 0 <= k < ColumnLength(|images|, c) =>
      SlotInRange(|images|, c, k); images[c + Columns * k])
  }

  /** The whole column set for a manifest, column 0 first. */
  function ColumnSet(images: seq<ImageSource>): (columnSet: seq<seq<ImageSource>>)
  {
    seq(Columns, c requires 0 <= c < Columns => Column(images, c))
  }

  /** Concatenation of a sequence of groups, in order. */
  function Flatten<X>(groups: seq<seq<X>>): (items: seq<X>)
  {
    if groups == [] then [] else Flatten(groups[..|groups| - 1]) + groups[|groups| - 1]
  }

  lemma FlattenAppend<X>(groups: seq<seq<X>>, g: seq<X>)
    ensures Flatten(groups + [g]) == Flatten(groups) + g
  {
    assert (groups + [g])[..|groups|] == groups;
  }

  /** Column lengths by cases: the first n % Columns columns get one image
      more than the others. */
  lemma ColumnLengthCases(n: nat, c: nat)
    requires c < Columns
    ensures ColumnLength(n, c) == if c < n % Columns then n / Columns + 1 else n / Columns
  {
  }

  /** Columns are balanced: a later column never has more images than an
      earlier one, and at most one fewer. */
  lemma ColumnLengthsBalanced(n: nat, c: nat, d: nat)
    requires c <= d < Columns
    ensures ColumnLength(n, d) <= ColumnLength(n, c) <= ColumnLength(n, d) + 1
  {
    ColumnLengthCases(n, c);
    ColumnLengthCases(n, d);
  }

  /** Adding one image to the manifest appends it to column |s| % Columns and
      leaves every other column as it was. */
  lemma ColumnAppend(s: seq<ImageSource>, x: ImageSource, c: nat)
    requires c < Columns
    ensures Column(s + [x], c) == if |s| % Columns == c then Column(s, c) + [x] else Column(s, c)
  {
    var n := |s|;
    ColumnLengthCases(n, c);
    ColumnLengthCases(n + 1, c);
    var before, after := Column(s, c), Column(s + [x], c);
    forall k | 0 <= k < |before|
      ensures after[k] == before[k]
    {
      SlotInRange(n, c, k);
    }
    if n % Columns == c {
      assert c + Columns * |before| == n;
      assert after == before + [x];
    } else {
      assert after == before;
    }
  }

  /** The column set of s + [x] is that of s with x appended to column
      |s| % Columns. */
  lemma ColumnSetAppend(s: seq<ImageSource>, x: ImageSource)
    ensures ColumnSet(s + [x]) ==
            ColumnSet(s)[|s| % Columns := ColumnSet(s)[|s| % Columns] + [x]]
  {
    var c := |s| % Columns;
    var before, after := ColumnSet(s), ColumnSet(s + [x]);
    forall d | 0 <= d < Columns
      ensures after[d] == before[c := before[c] + [x]][d]
    {
      ColumnAppend(s, x, d);
    }
  }

  /** Appending x to one group adds exactly x to the multiset of the
      flattened groups. */
  lemma {:induction false} FlattenPush(groups: seq<seq<ImageSource>>, c: nat, x: ImageSource)
    requires c < |groups|
    ensures multiset(Flatten(groups[c := groups[c] + [x]])) == multiset(Flatten(groups)) + multiset{x}
  {
    var m := |groups| - 1;
    var updated := groups[c := groups[c] + [x]];
    assert Flatten(updated) == Flatten(updated[..m]) + updated[m];
    assert Flatten(groups) == Flatten(groups[..m]) + groups[m];
    if c == m {
      assert updated[..m] == groups[..m];
      assert updated[m] == groups[m] + [x];
    } else {
      assert updated[..m] == groups[..m][c := groups[c] + [x]];
      assert updated[m] == groups[m];
      FlattenPush(groups[..m], c, x);
    }
  }

  /** The distribution is a partition: the columns together hold every image
      of the manifest exactly as often as the manifest does. */
  lemma {:induction false} ColumnsPartition(images: seq<ImageSource>)
    ensures multiset(Flatten(ColumnSet(images))) == multiset(images)
    ensures |Flatten(ColumnSet(images))| == |images|
  {
    if images == [] {
      var empty := ColumnSet(images);
      assert empty == [[], [], [], []];
      var e: seq<ImageSource> := [];
      assert Flatten([e]) == [] by { FlattenAppend([], e); }
      assert Flatten([e, e]) == [] by { FlattenAppend([e], e); }
      assert Flatten([e, e, e]) == [] by { assert [e, e] + [e] == [e, e, e]; FlattenAppend([e, e], e); }
      assert [e, e, e] + [e] == empty;
      FlattenAppend([e, e, e], e);
    } else {
      var s, x := images[..|images| - 1], images[|images| - 1];
      assert images == s + [x];
      var c := |s| % Columns;
      ColumnsPartition(s);
      ColumnSetAppend(s, x);
      FlattenPush(ColumnSet(s), c, x);
      calc {
        multiset(Flatten(ColumnSet(images)));
        multiset(Flatten(ColumnSet(s)[c := ColumnSet(s)[c] + [x]]));
        multiset(Flatten(ColumnSet(s))) + multiset{x};
        multiset(s) + multiset{x};
        multiset(images);
      }
    }
    assert |Flatten(ColumnSet(images))| == |multiset(Flatten(ColumnSet(images)))|;
    assert |images| == |multiset(images)|;
  }

  /** Image i lands in column i % Columns, at slot i / Columns. */
  lemma PlacementOfIndex(images: seq<ImageSource>, i: nat)
    requires i < |images|
    ensures i / Columns < |Column(images, i % Columns)|
    ensures Column(images, i % Columns)[i / Columns] == images[i]
  {
    SlotInRange(|images|, i % Columns, i / Columns);
  }

  /** Each index has exactly one slot: slot k of column c is index i exactly
      when c == i % Columns and k == i / Columns. */
  lemma SlotOfIndex(images: seq<ImageSource>, i: nat, c: nat, k: nat)
    requires i < |images| && c < Columns
    ensures (k < |Column(images, c)| && c + Columns * k == i) <==> (c == i % Columns && k == i / Columns)
  {
    SlotInRange(|images|, c, k);
  }

  /** Dealing is stable: the columns of a prefix of the manifest are prefixes
      of the final columns, so each column keeps input order. */
  lemma ColumnPrefix(images: seq<ImageSource>, m: nat, c: nat)
    requires m <= |images| && c < Columns
    ensures Column(images[..m], c) <= Column(images, c)
  {
    var part, whole := Column(images[..m], c), Column(images, c);
    ColumnLengthCases(m, c);
    ColumnLengthCases(|images|, c);
    forall k | 0 <= k < |part|
      ensures part[k] == whole[k]
    {
      SlotInRange(m, c, k);
    }
  }

  /** The dealing loop: image index goes to column index % Columns. */
  method DistributeColumns(images: seq<ImageSource>) returns (columnArrays: seq<seq<ImageSource>>)
    ensures columnArrays == ColumnSet(images)
  {
    columnArrays := seq(Columns, _ => []);
    var index := 0;
    while index < |images|
      invariant 0 <= index <= |images|
      invariant columnArrays == ColumnSet(images[..index])
    {
      var c := index % Columns;
      ColumnSetAppend(images[..index], images[index]);
      assert images[..index + 1] == images[..index] + [images[index]];
      columnArrays := columnArrays[c := columnArrays[c] + [images[index]]];
      index := index + 1;
    }
    assert images[..index] == images;
  }

  /** The looping strip: the column set followed by a copy of itself. */
  function Render(columnArrays: seq<seq<ImageSource>>): (groups: seq<seq<ImageSource>>)
    ensures |groups| == 2 * |columnArrays|
    ensures forall j :: 0 <= j < |columnArrays| ==>
              groups[j] == columnArrays[j] && groups[|columnArrays| + j] == columnArrays[j]
  {
    columnArrays + columnArrays
  }

  /** The rendering loops: each copy of the column set contributes one
      group per column, built tile by tile. */
  method RenderColumns(columnArrays: seq<seq<ImageSource>>) returns (wrapper: seq<seq<ImageSource>>)
    ensures wrapper == Render(columnArrays)
  {
    var columnSets := [columnArrays, columnArrays];
    wrapper := [];
    for s := 0 to |columnSets|
      invariant wrapper == Flatten(columnSets[..s])
    {
      var columnSet := columnSets[s];
      assert columnSets[..s + 1] == columnSets[..s] + [columnSet];
      FlattenAppend(columnSets[..s], columnSet);
      ghost var start := wrapper;
      for j := 0 to |columnSet|
        invariant wrapper == start + columnSet[..j]
      {
        var columnImages := columnSet[j];
        var columnWrapper := [];
        for k := 0 to |columnImages|
          invariant columnWrapper == columnImages[..k]
        {
          assert columnImages[..k + 1] == columnImages[..k] + [columnImages[k]];
          columnWrapper := columnWrapper + [columnImages[k]];
        }
        assert columnImages[..|columnImages|] == columnImages;
        assert columnSet[..j + 1] == columnSet[..j] + [columnImages];
        wrapper := wrapper + [columnWrapper];
      }
      assert columnSet[..|columnSet|] == columnSet;
    }
    assert columnSets[..2] == columnSets;
    FlattenAppend([columnArrays], columnArrays);
    FlattenAppend([], columnArrays);
  }

  /** Length of the scroll animation, in seconds: SecondsPerImage seconds
      for each tile of one column set. */
  function AnimationDuration(images: seq<ImageSource>): (seconds: nat)
    ensures seconds == SecondsPerImage * |Flatten(ColumnSet(images))|
  {
    ColumnsPartition(images);
    SecondsPerImage * |images|
  }

  /** Over the doubled strip, each tile gets half of SecondsPerImage. */
  lemma DurationPerTile(images: seq<ImageSource>)
    ensures 2 * AnimationDuration(images) == SecondsPerImage * |Flatten(Render(ColumnSet(images)))|
  {
    FlattenConcat(ColumnSet(images), ColumnSet(images));
  }

  lemma {:induction false} FlattenConcat<X>(a: seq<seq<X>>, b: seq<seq<X>>)
    ensures Flatten(a + b) == Flatten(a) + Flatten(b)
  {
    if b == [] {
      assert a + b == a;
    } else {
      var m := |b| - 1;
      assert a + b == (a + b[..m]) + [b[m]];
      assert b == b[..m] + [b[m]];
      FlattenConcat(a, b[..m]);
      FlattenAppend(a + b[..m], b[m]);
      FlattenAppend(b[..m], b[m]);
    }
  }

  /** An empty manifest lays out as four empty columns, eight empty groups
      in the strip and a zero-length animation. */
  lemma EmptyManifest()
    ensures ColumnSet([]) == [[], [], [], []]
    ensures Render(ColumnSet([])) == [[], [], [], [], [], [], [], []]
    ensures AnimationDuration([]) == 0
  {
  }
}
