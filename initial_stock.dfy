/**
 * The initial content of the `stock` table written by the database creation
 * script: one row per (agence, article) pair, agences in the outer loop and
 * articles in the inner loop, each with quantity 0 and threshold 5.
 */
module InitialStock {
  import opened Schema

  /** The column defaults the script also passes explicitly. */
  const QuantiteInitiale: int := 0
  const StockMinInitial: int := 5

  /** The ids `SELECT id FROM agences` returns: no id twice (it is the primary key). */
  predicate Distinct(ids: seq<int>) {
    forall i, j :: 0 <= i < j < |ids| ==> ids[i] != ids[j]
  }

  /** The tuple `(article_id, agence_id, 0, 5)` appended for one pair. */
  function InitialRow(agenceId: int, articleId: int): StockRow {
    StockRow(articleId, agenceId, QuantiteInitiale, StockMinInitial)
  }

  /** The rows the inner loop appends for one agence, in article order. */
  function RowsFor(agenceId: int, articleIds: seq<int>): (r: seq<StockRow>)
    ensures |r| == |articleIds|
    ensures forall j :: 0 <= j < |articleIds| ==> r[j] == InitialRow(agenceId, articleIds[j])
  {
    if |articleIds| == 0 then []
    else RowsFor(agenceId, articleIds[..|articleIds| - 1]) + [InitialRow(agenceId, articleIds[|articleIds| - 1])]
  }

  /** The whole list `stock_data`: the rows of each agence after those of the agences before it. */
  function CrossProduct(agenceIds: seq<int>, articleIds: seq<int>): seq<StockRow> {
    if |agenceIds| == 0 then []
    else CrossProduct(agenceIds[..|agenceIds| - 1], articleIds) + RowsFor(agenceIds[|agenceIds| - 1], articleIds)
  }

  /** The nested loop that fills `stock_data` before the bulk insert. */
  method BuildStockData(agenceIds: seq<int>, articleIds: seq<int>) returns (stockData: seq<StockRow>)
    ensures stockData == CrossProduct(agenceIds, articleIds)
  {
    stockData := [];
    for i := 0 to |agenceIds|
      invariant stockData == CrossProduct(agenceIds[..i], articleIds)
    {
      for j := 0 to |articleIds|
        invariant stockData == CrossProduct(agenceIds[..i], articleIds) + RowsFor(agenceIds[i], articleIds[..j])
      {
        assert articleIds[..j + 1][..j] == articleIds[..j];
        stockData := stockData + [InitialRow(agenceIds[i], articleIds[j])];
      }
      assert articleIds[..|articleIds|] == articleIds;
      assert agenceIds[..i + 1][..i] == agenceIds[..i];
    }
    assert agenceIds[..|agenceIds|] == agenceIds;
  }

  /** a <= b implies a * m <= b * m, for naturals. */
  lemma {:induction false} MulMonotone(a: nat, b: nat, m: nat)
    requires a <= b
    ensures a * m <= b * m
  {
    if a < b {
      MulMonotone(a, b - 1, m);
      assert (b - 1) * m + m == b * m;
    }
  }

  /** Position i * m + j of an n x m layout lies inside the first i + 1 blocks. */
  lemma BlockIndex(i: nat, j: nat, n: nat, m: nat)
    requires i < n && j < m
    ensures i * m + j < (i + 1) * m <= n * m
  {
    assert (i + 1) * m == i * m + m;
    MulMonotone(i + 1, n, m);
  }

  /** There are |agences| x |articles| rows. */
  lemma {:induction false} CrossProductLength(agenceIds: seq<int>, articleIds: seq<int>)
    ensures |CrossProduct(agenceIds, articleIds)| == |agenceIds| * |articleIds|
  {
    if |agenceIds| > 0 {
      var n, m := |agenceIds|, |articleIds|;
      CrossProductLength(agenceIds[..n - 1], articleIds);
      assert (n - 1) * m + m == n * m;
    }
  }

  /** The row at position i * |articles| + j is the one of the i-th agence and the j-th article. */
  lemma {:induction false} CrossProductAt(agenceIds: seq<int>, articleIds: seq<int>, i: nat, j: nat)
    requires i < |agenceIds| && j < |articleIds|
    ensures i * |articleIds| + j < |CrossProduct(agenceIds, articleIds)|
    ensures CrossProduct(agenceIds, articleIds)[i * |articleIds| + j] == InitialRow(agenceIds[i], articleIds[j])
  {
    var n, m := |agenceIds|, |articleIds|;
    var front := agenceIds[..n - 1];
    CrossProductLength(agenceIds, articleIds);
    CrossProductLength(front, articleIds);
    BlockIndex(i, j, n, m);
    if i < n - 1 {
      BlockIndex(i, j, n - 1, m);
      CrossProductAt(front, articleIds, i, j);
      assert front[i] == agenceIds[i];
    } else {
      assert i * m + j == (n - 1) * m + j;
    }
  }

  /** Every row belongs to a listed agence and a listed article, with quantity 0 and threshold 5. */
  lemma {:induction false} CrossProductRows(agenceIds: seq<int>, articleIds: seq<int>)
    ensures forall k :: 0 <= k < |CrossProduct(agenceIds, articleIds)| ==>
      var row := CrossProduct(agenceIds, articleIds)[k];
      row.agenceId in agenceIds && row.articleId in articleIds &&
      row.quantite == 0 && row.stockMin == 5
  {
    if |agenceIds| > 0 {
      CrossProductRows(agenceIds[..|agenceIds| - 1], articleIds);
    }
  }

  /** Every (agence, article) pair of the lists has a row. */
  lemma CrossProductCovers(agenceIds: seq<int>, articleIds: seq<int>, agenceId: int, articleId: int)
    requires agenceId in agenceIds && articleId in articleIds
    ensures Find(CrossProduct(agenceIds, articleIds), articleId, agenceId).Some?
  {
    var i :| 0 <= i < |agenceIds| && agenceIds[i] == agenceId;
    var j :| 0 <= j < |articleIds| && articleIds[j] == articleId;
    CrossProductAt(agenceIds, articleIds, i, j);
    assert HasKey(CrossProduct(agenceIds, articleIds)[i * |articleIds| + j], articleId, agenceId);
  }

  lemma UniqueKeysAppend(a: seq<StockRow>, b: seq<StockRow>)
    requires UniqueKeys(a) && UniqueKeys(b)
    requires forall i, j :: 0 <= i < |a| && 0 <= j < |b| ==> !HasKey(b[j], a[i].articleId, a[i].agenceId)
    ensures UniqueKeys(a + b)
  {
    var c := a + b;
    forall i, j | 0 <= i < j < |c| ensures !HasKey(c[j], c[i].articleId, c[i].agenceId) {
      if j < |a| {
      } else if i >= |a| {
        assert c[i] == b[i - |a|] && c[j] == b[j - |a|];
      } else {
        assert c[j] == b[j - |a|];
      }
    }
  }

  /** With distinct ids, no two rows share a key: the UNIQUE(article_id, agence_id)
      constraint is met by the bulk insert. */
  lemma {:induction false} CrossProductUnique(agenceIds: seq<int>, articleIds: seq<int>)
    requires Distinct(agenceIds) && Distinct(articleIds)
    ensures UniqueKeys(CrossProduct(agenceIds, articleIds))
  {
    if |agenceIds| > 0 {
      var n := |agenceIds|;
      var front, last := agenceIds[..n - 1], agenceIds[n - 1];
      CrossProductUnique(front, articleIds);
      CrossProductRows(front, articleIds);
      var a, b := CrossProduct(front, articleIds), RowsFor(last, articleIds);
      assert last !in front;
      UniqueKeysAppend(a, b);
    }
  }

  /** Ids standing for those the creation script reads back: 27 agences and 22 articles.
      The query has no ORDER BY, so the script may see them in some other order; only
      their number and their distinctness are used. */
  function SeedIds(count: nat): (ids: seq<int>)
    ensures |ids| == count && Distinct(ids)
  {
    seq(count, k => k + 1)
  }

  /** The seeded database starts with 27 x 22 = 594 stock rows with pairwise distinct keys. */
  lemma SeededStock()
    ensures |CrossProduct(SeedIds(27), SeedIds(22))| == 594
    ensures UniqueKeys(CrossProduct(SeedIds(27), SeedIds(22)))
  {
    CrossProductLength(SeedIds(27), SeedIds(22));
    CrossProductUnique(SeedIds(27), SeedIds(22));
  }
}
