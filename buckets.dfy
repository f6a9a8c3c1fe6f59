/**
 * How the body builders sort the items of the original module: import
 * declarations, the other module declarations (exports), statements, and empty
 * statements, which some builders drop and others keep with the statements.
 */
module Buckets {
  import opened SwcAst

  datatype Bucket = ImportBucket | ExportBucket | StmtBucket | Dropped

  /** The bucket an item goes to; `keepEmpty` says whether empty statements stay with
      the statements. */
  function BucketOf(item: ModuleItem, keepEmpty: bool): (b: Bucket)
    ensures b == ImportBucket <==> IsImport(item)
    ensures b == ExportBucket <==> item.DeclItem? && !item.moduleDecl.Import?
    ensures b == Dropped <==> !keepEmpty && item == StmtItem(EmptyStmt)
  {
    match item
    case DeclItem(d) => if d.Import? then ImportBucket else ExportBucket
    case StmtItem(s) => if s.EmptyStmt? && !keepEmpty then Dropped else StmtBucket
  }

  /** The items of one bucket, in their original order. */
  function Select(items: seq<ModuleItem>, b: Bucket, keepEmpty: bool): (r: seq<ModuleItem>)
    ensures |r| <= |items|
  {
    if items == [] then []
    else
      var last := items[|items| - 1];
      Select(items[..|items| - 1], b, keepEmpty) + (if BucketOf(last, keepEmpty) == b then [last] else [])
  }

  /** An item is selected exactly when it is in the input and belongs to the bucket. */
  lemma {:induction false} SelectMembers(items: seq<ModuleItem>, b: Bucket, keepEmpty: bool)
    ensures forall x :: x in Select(items, b, keepEmpty) <==> x in items && BucketOf(x, keepEmpty) == b
  {
    if items != [] {
      var init := items[..|items| - 1];
      SelectMembers(init, b, keepEmpty);
      assert items == init + [items[|items| - 1]];
    }
  }

  lemma SelectSnoc(init: seq<ModuleItem>, last: ModuleItem, k: Bucket, keepEmpty: bool)
    ensures Select(init + [last], k, keepEmpty) == Select(init, k, keepEmpty) + (if BucketOf(last, keepEmpty) == k then [last] else [])
  {
    assert (init + [last])[..|init|] == init;
  }

  /** Every item lands in exactly one bucket: the four buckets together hold the
      input, each item as often as it occurs. */
  lemma {:induction false} SelectPartition(items: seq<ModuleItem>, keepEmpty: bool)
    ensures multiset(Select(items, ImportBucket, keepEmpty)) + multiset(Select(items, ExportBucket, keepEmpty))
      + multiset(Select(items, StmtBucket, keepEmpty)) + multiset(Select(items, Dropped, keepEmpty))
      == multiset(items)
  {
    if items != [] {
      var init := items[..|items| - 1];
      var last := items[|items| - 1];
      SelectPartition(init, keepEmpty);
      assert items == init + [last];
      SelectSnoc(init, last, ImportBucket, keepEmpty);
      SelectSnoc(init, last, ExportBucket, keepEmpty);
      SelectSnoc(init, last, StmtBucket, keepEmpty);
      SelectSnoc(init, last, Dropped, keepEmpty);
      var i1, e1, s1, d1 := Select(items, ImportBucket, keepEmpty), Select(items, ExportBucket, keepEmpty),
        Select(items, StmtBucket, keepEmpty), Select(items, Dropped, keepEmpty);
      var i0, e0, s0, d0 := Select(init, ImportBucket, keepEmpty), Select(init, ExportBucket, keepEmpty),
        Select(init, StmtBucket, keepEmpty), Select(init, Dropped, keepEmpty);
      var k := BucketOf(last, keepEmpty);
      AddToOne(multiset(i0), multiset(e0), multiset(s0), multiset(d0), multiset(init), last, k,
        multiset(i1), multiset(e1), multiset(s1), multiset(d1));
      assert multiset(items) == multiset(init) + multiset{last};
    }
  }

  /** Adding one item to exactly one of four parts of a multiset adds it to the whole. */
  lemma AddToOne<T>(a: multiset<T>, b: multiset<T>, c: multiset<T>, d: multiset<T>, m: multiset<T>, x: T, k: Bucket,
                    a': multiset<T>, b': multiset<T>, c': multiset<T>, d': multiset<T>)
    requires a + b + c + d == m
    requires a' == a + (if k == ImportBucket then multiset{x} else multiset{})
    requires b' == b + (if k == ExportBucket then multiset{x} else multiset{})
    requires c' == c + (if k == StmtBucket then multiset{x} else multiset{})
    requires d' == d + (if k == Dropped then multiset{x} else multiset{})
    ensures a' + b' + c' + d' == m + multiset{x}
  {
  }

  /** With empty statements kept, nothing is dropped. */
  lemma {:induction false} NothingDropped(items: seq<ModuleItem>)
    ensures Select(items, Dropped, true) == []
  {
    if items != [] {
      NothingDropped(items[..|items| - 1]);
    }
  }

  /** A body laid out as imports, then fixed items, then other module declarations,
      then anything: where each part lands. */
  lemma LayoutIndices(head: seq<ModuleItem>, mid: seq<ModuleItem>, decls: seq<ModuleItem>, tail: seq<ModuleItem>)
    requires forall x :: x in head ==> IsImport(x)
    requires forall x :: x in decls ==> x.DeclItem? && !IsImport(x)
    ensures var r := head + mid + decls + tail;
      && |r| == |head| + |mid| + |decls| + |tail|
      && (forall i :: 0 <= i < |head| ==> IsImport(r[i]))
      && (forall i :: 0 <= i < |mid| ==> r[|head| + i] == mid[i])
      && (forall i :: |head| + |mid| <= i < |head| + |mid| + |decls| ==> r[i].DeclItem? && !IsImport(r[i]))
  {
    var r := head + mid + decls + tail;
    forall i | 0 <= i < |head|
      ensures IsImport(r[i])
    {
      assert r[i] == head[i] && head[i] in head;
    }
    forall i | |head| + |mid| <= i < |head| + |mid| + |decls|
      ensures r[i].DeclItem? && !IsImport(r[i])
    {
      var j := i - |head| - |mid|;
      assert r[i] == decls[j] && decls[j] in decls;
    }
  }

  /** The statement bucket holds statements only, the import bucket imports only. */
  lemma {:induction false} SelectKinds(items: seq<ModuleItem>, keepEmpty: bool)
    ensures forall x :: x in Select(items, StmtBucket, keepEmpty) ==> x.StmtItem?
    ensures forall x :: x in Select(items, ImportBucket, keepEmpty) ==> IsImport(x)
    ensures forall x :: x in Select(items, ExportBucket, keepEmpty) ==> x.DeclItem? && !IsImport(x)
  {
    SelectMembers(items, StmtBucket, keepEmpty);
    SelectMembers(items, ImportBucket, keepEmpty);
    SelectMembers(items, ExportBucket, keepEmpty);
  }

  /** The statements of the statement bucket. */
  function StmtsOf(items: seq<ModuleItem>): (r: seq<Stmt>)
    requires forall i :: 0 <= i < |items| ==> items[i].StmtItem?
    ensures |r| == |items|
    ensures forall i :: 0 <= i < |items| ==> items[i] == StmtItem(r[i])
  {
    seq(|items|, i requires 0 <= i < |items| => items[i].stmt)
  }

  /** Statements as module items. */
  function StmtItems(stmts: seq<Stmt>): (r: seq<ModuleItem>)
    ensures |r| == |stmts|
    ensures forall i :: 0 <= i < |stmts| ==> r[i] == StmtItem(stmts[i])
  {
    seq(|stmts|, i requires 0 <= i < |stmts| => StmtItem(stmts[i]))
  }
}
