/**
 * The read-side endpoints: the stock listing with its shortage flag, the
 * dashboard counters, and the bounded most-recent-first movement history.
 */
module Queries {
  import opened Schema
  import opened InitialStock
  import opened Ledger

  /** The `alerte` flag of a stock line: the quantity is below the threshold. */
  predicate Alerte(row: StockRow) {
    row.quantite < row.stockMin
  }

  /** One line of `GET /api/stock` (names and categories of the join are not modelled). */
  datatype StockLine = StockLine(agenceId: int, articleId: int, quantite: int, stockMin: int, alerte: bool)

  /** `GET /api/stock`: one line per stock row, with its flag. */
  function GetStock(db: Db): seq<StockLine> {
    seq(|db.stock|, i requires 0 <= i < |db.stock| =>
      var row := db.stock[i];
      StockLine(row.agenceId, row.articleId, row.quantite, row.stockMin, Alerte(row)))
  }

  /** `SELECT COUNT(*) FROM stock WHERE quantite < stock_min`. */
  function CountAlertes(rows: seq<StockRow>): nat {
    if |rows| == 0 then 0
    else CountAlertes(rows[..|rows| - 1]) + (if Alerte(rows[|rows| - 1]) then 1 else 0)
  }

  /** `SELECT SUM(quantite) FROM stock`, with the NULL of an empty table read as 0. */
  function SumQuantites(rows: seq<StockRow>): int {
    if |rows| == 0 then 0
    else SumQuantites(rows[..|rows| - 1]) + rows[|rows| - 1].quantite
  }

  /** The ids of the demandes still 'en_attente'. */
  function PendingIds(demandes: map<int, Demande>): set<int> {
    set id | id in demandes && demandes[id].statut == EnAttente
  }

  /** The answer of `GET /api/stats`. */
  datatype Stats = Stats(
    totalAgences: nat,
    totalArticles: nat,
    totalDemandes: nat,
    demandesAttente: nat,
    alertesStock: nat,
    totalItems: int)

  /** `GET /api/stats`. Every agence and article counts as active: nothing here
      changes the `actif` column from its default. */
  function GetStats(db: Db): (s: Stats)
    ensures s.demandesAttente <= s.totalDemandes
    ensures s.alertesStock == |set i | 0 <= i < |db.stock| && Alerte(db.stock[i])|
    ensures s.alertesStock <= |db.stock|
    ensures (forall i :: 0 <= i < |db.stock| ==> db.stock[i].quantite >= 0) ==> s.totalItems >= 0
  {
    CountAlertesIsCardinality(db.stock);
    SumQuantitesNonNegative(db.stock);
    PendingIdsBound(db.demandes);
    Stats(|db.agences|, |db.articles|, |db.demandes|, |PendingIds(db.demandes)|,
          CountAlertes(db.stock), SumQuantites(db.stock))
  }

  lemma PendingIdsBound(demandes: map<int, Demande>)
    ensures |PendingIds(demandes)| <= |demandes|
  {
    var pending, rest := PendingIds(demandes), demandes.Keys - PendingIds(demandes);
    assert pending + rest == demandes.Keys;
    assert pending * rest == {};
  }

  /** The counter equals the number of rows in shortage. */
  lemma {:induction false} CountAlertesIsCardinality(rows: seq<StockRow>)
    ensures CountAlertes(rows) == |set i | 0 <= i < |rows| && Alerte(rows[i])|
    ensures CountAlertes(rows) <= |rows|
  {
    if |rows| > 0 {
      var n := |rows|;
      var front := rows[..n - 1];
      CountAlertesIsCardinality(front);
      var before := set i | 0 <= i < n - 1 && Alerte(front[i]);
      var all := set i | 0 <= i < n && Alerte(rows[i]);
      if Alerte(rows[n - 1]) {
        assert all == before + {n - 1};
        assert n - 1 !in before;
      } else {
        assert all == before;
      }
    }
  }

  lemma {:induction false} SumQuantitesNonNegative(rows: seq<StockRow>)
    ensures (forall i :: 0 <= i < |rows| ==> rows[i].quantite >= 0) ==> SumQuantites(rows) >= 0
    ensures |rows| == 0 ==> SumQuantites(rows) == 0
  {
    if |rows| > 0 {
      SumQuantitesNonNegative(rows[..|rows| - 1]);
    }
  }

  /** The number of flagged lines of the listing is the dashboard's `alertes_stock`. */
  lemma AlertLinesMatchStats(db: Db)
    ensures |set i | 0 <= i < |GetStock(db)| && GetStock(db)[i].alerte| == GetStats(db).alertesStock
  {
    var lines := GetStock(db);
    assert (set i | 0 <= i < |lines| && lines[i].alerte) == (set i | 0 <= i < |db.stock| && Alerte(db.stock[i]));
  }

  /** Updating a unique key to quantity q changes the sum by q minus the old quantity. */
  lemma {:induction false} SumSetQuantite(rows: seq<StockRow>, articleId: int, agenceId: int, q: int)
    requires UniqueKeys(rows)
    requires Quantite(rows, articleId, agenceId).Some?
    ensures SumQuantites(SetQuantite(rows, articleId, agenceId, q))
         == SumQuantites(rows) - Quantite(rows, articleId, agenceId).value + q
  {
    var n := |rows|;
    var front, last := rows[..n - 1], rows[n - 1];
    var r := SetQuantite(rows, articleId, agenceId, q);
    assert r[..n - 1] == SetQuantite(front, articleId, agenceId, q);
    if HasKey(last, articleId, agenceId) {
      FindUnique(rows, n - 1);
      assert SetQuantite(front, articleId, agenceId, q) == front;
    } else {
      var f := Find(rows, articleId, agenceId).value;
      assert Find(front, articleId, agenceId) == Some(f);
      SumSetQuantite(front, articleId, agenceId, q);
    }
  }

  /** Under the UNIQUE constraint, a successful adjustment changes `total_items` by
      exactly `delta`. */
  lemma TotalItemsAfterUpdate(db: Db, articleId: int, agenceId: int, delta: int, commentaire: Option<string>)
    requires UniqueKeys(db.stock)
    requires UpdateStock(db, articleId, agenceId, delta, commentaire).0.Ok?
    ensures GetStats(UpdateStock(db, articleId, agenceId, delta, commentaire).1).totalItems == GetStats(db).totalItems + delta
  {
    var before := Quantite(db.stock, articleId, agenceId).value;
    SumSetQuantite(db.stock, articleId, agenceId, before + delta);
  }

  /** Under the UNIQUE constraint, a successful validation lowers `total_items` by the
      requested quantity and `demandes_attente` by one. */
  lemma StatsAfterValidation(db: Db, demandeId: int, utilisateur: string)
    requires UniqueKeys(db.stock)
    requires ValiderDemande(db, demandeId, utilisateur).0.Ok?
    ensures demandeId in db.demandes
    ensures var s, s' := GetStats(db), GetStats(ValiderDemande(db, demandeId, utilisateur).1);
      && s'.totalItems == s.totalItems - db.demandes[demandeId].quantite
      && s'.demandesAttente == s.demandesAttente - 1
      && s'.totalDemandes == s.totalDemandes
  {
    var d := db.demandes[demandeId];
    var before := Quantite(db.stock, d.articleId, d.agenceId).value;
    SumSetQuantite(db.stock, d.articleId, d.agenceId, before - d.quantite);
    var db' := ValiderDemande(db, demandeId, utilisateur).1;
    assert PendingIds(db'.demandes) == PendingIds(db.demandes) - {demandeId};
  }

  /** A successful creation adds one demande, pending, to the counters. */
  lemma StatsAfterCreate(db: Db, req: DemandeCreate)
    requires Valid(db)
    requires CreateDemande(db, req).0.Ok?
    ensures var s, s' := GetStats(db), GetStats(CreateDemande(db, req).1);
      && s'.totalDemandes == s.totalDemandes + 1
      && s'.demandesAttente == s.demandesAttente + 1
      && s'.totalItems == s.totalItems
  {
    CreateDemandeSuccess(db, req);
    var (r, db') := CreateDemande(db, req);
    assert PendingIds(db'.demandes) == PendingIds(db.demandes) + {r.value};
  }

  lemma {:induction false} SeqToSetCardinality(ids: seq<int>)
    requires Distinct(ids)
    ensures |set a | a in ids| == |ids|
  {
    if |ids| > 0 {
      var front := ids[..|ids| - 1];
      SeqToSetCardinality(front);
      assert (set a | a in ids) == (set a | a in front) + {ids[|ids| - 1]};
    }
  }

  lemma {:induction false} InitialSums(agenceIds: seq<int>, articleIds: seq<int>)
    ensures CountAlertes(CrossProduct(agenceIds, articleIds)) == |CrossProduct(agenceIds, articleIds)|
    ensures SumQuantites(CrossProduct(agenceIds, articleIds)) == 0
  {
    CrossProductRows(agenceIds, articleIds);
    AllAlerte(CrossProduct(agenceIds, articleIds));
  }

  lemma {:induction false} AllAlerte(rows: seq<StockRow>)
    requires forall k :: 0 <= k < |rows| ==> rows[k].quantite == 0 && rows[k].stockMin == 5
    ensures CountAlertes(rows) == |rows| && SumQuantites(rows) == 0
  {
    if |rows| > 0 {
      AllAlerte(rows[..|rows| - 1]);
    }
  }

  /** The freshly created database: every stock row is in shortage, nothing is stocked
      and no demande exists. */
  lemma InitialStats(agenceIds: seq<int>, articleIds: seq<int>)
    requires Distinct(agenceIds) && Distinct(articleIds)
    ensures GetStats(InitialDb(agenceIds, articleIds)) ==
      Stats(|agenceIds|, |articleIds|, 0, 0, |agenceIds| * |articleIds|, 0)
    ensures forall i :: 0 <= i < |GetStock(InitialDb(agenceIds, articleIds))| ==>
      GetStock(InitialDb(agenceIds, articleIds))[i].alerte
  {
    SeqToSetCardinality(agenceIds);
    SeqToSetCardinality(articleIds);
    CrossProductLength(agenceIds, articleIds);
    CrossProductRows(agenceIds, articleIds);
    InitialSums(agenceIds, articleIds);
  }

  const DefaultLimit: int := 50

  /** `GET /api/historique?limit=n`: the n newest movements, newest first; SQLite reads
      a negative LIMIT as no limit at all. */
  function GetHistorique(db: Db, limit: int := DefaultLimit): (r: seq<Mouvement>)
    ensures |r| == if 0 <= limit < |db.historique| then limit else |db.historique|
    ensures forall i :: 0 <= i < |r| ==> r[i] == db.historique[|db.historique| - 1 - i]
  {
    Newest(db.historique, if limit < 0 then |db.historique| else limit)
  }

  /** The last n movements of a history, the most recent first. */
  function Newest(h: seq<Mouvement>, n: nat): (r: seq<Mouvement>)
    ensures |r| == if n < |h| then n else |h|
    ensures forall i :: 0 <= i < |r| ==> r[i] == h[|h| - 1 - i]
  {
    if n == 0 || |h| == 0 then []
    else [h[|h| - 1]] + Newest(h[..|h| - 1], n - 1)
  }
}
