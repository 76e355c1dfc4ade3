/**
 * The stock ledger and the request workflow of the API, as functions from the
 * database before a call to the answer and the database after it. Each handler
 * runs as one atomic step: a failure leaves the database as it was.
 *
 * The invariant `Valid` is what the creation script establishes and every
 * handler keeps: unique stock keys, non-negative quantities, each quantity equal
 * to the net of the movements recorded for its key, and each validated demande
 * linked to exactly one 'demande' movement.
 */
module Ledger {
  import opened Schema
  import opened InitialStock

  /** The tables: agence and article ids, `stock`, `demandes` with the last id
      AUTOINCREMENT handed out, and `historique` in insertion order. */
  datatype Db = Db(
    agences: set<int>,
    articles: set<int>,
    stock: seq<StockRow>,
    demandes: map<int, Demande>,
    lastDemandeId: int,
    historique: seq<Mouvement>)

  /** The `stock_avant` / `stock_apres` pair the two stock-changing handlers return. */
  datatype Change = Change(stockAvant: int, stockApres: int)

  /** The body of a `POST /api/demandes/create` call. */
  datatype DemandeCreate = DemandeCreate(
    ticketServicenow: string,
    agenceId: int,
    articleId: int,
    clientNom: string,
    clientEmail: Option<string>,
    quantite: int,
    commentaire: Option<string>)

  function Abs(x: int): (r: nat)
    ensures r == x || r == -x
  {
    if x < 0 then -x else x
  }

  /** The signed change of stock a movement records. */
  function Delta(m: Mouvement): int {
    if m.typeMouvement == Entree then m.quantite else -m.quantite
  }

  /** A movement is internally consistent: the after-value is the before-value plus the
      signed change, both are non-negative, an 'entree' is positive, a 'sortie' is a
      magnitude, and exactly the 'demande' movements are linked to a demande. */
  predicate Consistent(m: Mouvement) {
    && m.stockAvant >= 0
    && m.stockApres >= 0
    && m.stockApres == m.stockAvant + Delta(m)
    && (m.typeMouvement == Entree ==> m.quantite > 0)
    && (m.typeMouvement == Sortie ==> m.quantite >= 0)
    && (m.typeMouvement == MouvementDemande <==> m.demandeId.Some?)
  }

  /** The net change recorded in a history for one key. */
  function NetFor(h: seq<Mouvement>, articleId: int, agenceId: int): int {
    if |h| == 0 then 0
    else
      NetFor(h[..|h| - 1], articleId, agenceId)
      + (if h[|h| - 1].articleId == articleId && h[|h| - 1].agenceId == agenceId then Delta(h[|h| - 1]) else 0)
  }

  /** How many movements of a history are linked to a demande id. */
  function LinkedCount(h: seq<Mouvement>, demandeId: int): nat {
    if |h| == 0 then 0
    else LinkedCount(h[..|h| - 1], demandeId) + (if h[|h| - 1].demandeId == Some(demandeId) then 1 else 0)
  }

  lemma NetForAppend(h: seq<Mouvement>, m: Mouvement, articleId: int, agenceId: int)
    ensures NetFor(h + [m], articleId, agenceId) ==
      NetFor(h, articleId, agenceId) + (if m.articleId == articleId && m.agenceId == agenceId then Delta(m) else 0)
  {
    assert (h + [m])[..|h|] == h;
  }

  lemma LinkedCountAppend(h: seq<Mouvement>, m: Mouvement, demandeId: int)
    ensures LinkedCount(h + [m], demandeId) == LinkedCount(h, demandeId) + (if m.demandeId == Some(demandeId) then 1 else 0)
  {
    assert (h + [m])[..|h|] == h;
  }

  /** A demande id that no movement mentions has no linked movement. */
  lemma {:induction false} LinkedCountZero(h: seq<Mouvement>, demandeId: int)
    requires forall j :: 0 <= j < |h| ==> h[j].demandeId != Some(demandeId)
    ensures LinkedCount(h, demandeId) == 0
  {
    if |h| > 0 {
      LinkedCountZero(h[..|h| - 1], demandeId);
    }
  }

  ghost predicate RowValid(db: Db, row: StockRow) {
    && row.articleId in db.articles
    && row.agenceId in db.agences
    && row.quantite >= 0
    && row.quantite == NetFor(db.historique, row.articleId, row.agenceId)
  }

  ghost predicate DemandeValid(db: Db, id: int)
    requires id in db.demandes
  {
    var d := db.demandes[id];
    && 1 <= id <= db.lastDemandeId
    && d.agenceId in db.agences
    && d.articleId in db.articles
    && (d.statut == Validee <==> d.validePar.Some?)
    && LinkedCount(db.historique, id) == (if d.statut == Validee then 1 else 0)
  }

  /** A movement linked to a demande is about that demande's key and quantity and
      names its validator. */
  ghost predicate LinkValid(demandes: map<int, Demande>, m: Mouvement) {
    m.demandeId.Some? ==>
      && m.demandeId.value in demandes
      && var d := demandes[m.demandeId.value];
      && m.articleId == d.articleId
      && m.agenceId == d.agenceId
      && m.quantite == d.quantite
      && m.utilisateur == d.validePar
  }

  ghost predicate MouvementValid(db: Db, m: Mouvement) {
    && Consistent(m)
    && Find(db.stock, m.articleId, m.agenceId).Some?
    && LinkValid(db.demandes, m)
  }

  /** The stock table: one row for every (article, agence) pair of the catalog and no
      other, UNIQUE keys, quantities non-negative and equal to the net of the key's
      movements (every row starts at 0). */
  ghost predicate RowsValid(db: Db) {
    && UniqueKeys(db.stock)
    && (forall i :: 0 <= i < |db.stock| ==> RowValid(db, db.stock[i]))
    && (forall a, g :: a in db.articles && g in db.agences ==> Find(db.stock, a, g).Some?)
  }

  /** The demandes table: ids handed out by AUTOINCREMENT, known ids, and exactly one
      linked movement for a validated demande, none for a pending one. */
  ghost predicate DemandesValid(db: Db) {
    && db.lastDemandeId >= 0
    && (forall id :: id in db.demandes ==> DemandeValid(db, id))
  }

  /** The historique table: consistent movements of existing keys. */
  ghost predicate HistoryValid(db: Db) {
    forall j :: 0 <= j < |db.historique| ==> MouvementValid(db, db.historique[j])
  }

  /** The database invariant. */
  ghost predicate Valid(db: Db) {
    RowsValid(db) && DemandesValid(db) && HistoryValid(db)
  }

  /** The database the creation script leaves: the catalog, the full cross product of
      stock rows, and no demande or movement yet. */
  function InitialDb(agenceIds: seq<int>, articleIds: seq<int>): Db {
    Db((set a | a in agenceIds), (set a | a in articleIds), CrossProduct(agenceIds, articleIds), map[], 0, [])
  }

  lemma InitialDbValid(agenceIds: seq<int>, articleIds: seq<int>)
    requires Distinct(agenceIds) && Distinct(articleIds)
    ensures Valid(InitialDb(agenceIds, articleIds))
  {
    CrossProductUnique(agenceIds, articleIds);
    CrossProductRows(agenceIds, articleIds);
    forall a, g | a in articleIds && g in agenceIds ensures Find(CrossProduct(agenceIds, articleIds), a, g).Some? {
      CrossProductCovers(agenceIds, articleIds, g, a);
    }
  }

  // ----------------------------------------------------------------------------
  // The write both stock-changing handlers perform

  /** The key of `m` gets the quantity `m.stockApres`, and `m` is appended to the history. */
  function Record(db: Db, m: Mouvement): Db {
    db.(stock := SetQuantite(db.stock, m.articleId, m.agenceId, m.stockApres), historique := db.historique + [m])
  }

  /** A movement that starts from the current quantity of an existing key. */
  ghost predicate Recordable(db: Db, m: Mouvement) {
    Consistent(m) && Quantite(db.stock, m.articleId, m.agenceId) == Some(m.stockAvant)
  }

  lemma RecordKeepsRows(db: Db, m: Mouvement)
    requires RowsValid(db) && Recordable(db, m)
    ensures RowsValid(Record(db, m))
  {
    var db' := Record(db, m);
    SetQuantiteKeepsKeys(db.stock, m.articleId, m.agenceId, m.stockApres, m.articleId, m.agenceId);
    forall i | 0 <= i < |db'.stock| ensures RowValid(db', db'.stock[i]) {
      var row := db.stock[i];
      assert RowValid(db, row);
      NetForAppend(db.historique, m, row.articleId, row.agenceId);
      if HasKey(row, m.articleId, m.agenceId) {
        FindUnique(db.stock, i);
      }
    }
    forall a, g | a in db'.articles && g in db'.agences ensures Find(db'.stock, a, g).Some? {
      SetQuantiteKeepsKeys(db.stock, m.articleId, m.agenceId, m.stockApres, a, g);
    }
  }

  lemma RecordKeepsHistory(db: Db, m: Mouvement)
    requires HistoryValid(db) && Recordable(db, m) && LinkValid(db.demandes, m)
    ensures HistoryValid(Record(db, m))
  {
    var db' := Record(db, m);
    forall j | 0 <= j < |db'.historique| ensures MouvementValid(db', db'.historique[j]) {
      var mj := db'.historique[j];
      SetQuantiteKeepsKeys(db.stock, m.articleId, m.agenceId, m.stockApres, mj.articleId, mj.agenceId);
      if j < |db.historique| {
        assert MouvementValid(db, db.historique[j]);
      }
    }
  }

  lemma RecordKeepsDemandes(db: Db, m: Mouvement)
    requires DemandesValid(db) && m.demandeId.None?
    ensures DemandesValid(Record(db, m))
  {
    var db' := Record(db, m);
    forall id | id in db'.demandes ensures DemandeValid(db', id) {
      assert DemandeValid(db, id);
      LinkedCountAppend(db.historique, m, id);
    }
  }

  // ----------------------------------------------------------------------------
  // POST /api/stock/update

  /** The movement an adjustment records: 'entree' for a positive delta, otherwise
      'sortie', with the magnitude of the delta. */
  function AdjustmentMouvement(articleId: int, agenceId: int, delta: int, before: int, commentaire: Option<string>): Mouvement {
    Mouvement(articleId, agenceId, if delta > 0 then Entree else Sortie, Abs(delta), before, before + delta, None, None, commentaire)
  }

  /** Adds `delta` to the quantity of a key, refusing a key without a row and a
      negative result, and records one movement. */
  function UpdateStock(db: Db, articleId: int, agenceId: int, delta: int, commentaire: Option<string>): (Result<Change>, Db) {
    match Find(db.stock, articleId, agenceId)
    case None => (Err(StockNonTrouve), db)
    case Some(i) =>
      var before := db.stock[i].quantite;
      var after := before + delta;
      if after < 0 then (Err(StockInsuffisant), db)
      else (Ok(Change(before, after)), Record(db, AdjustmentMouvement(articleId, agenceId, delta, before, commentaire)))
  }

  /** The two failures, and only they, leave the database unchanged: no row for the
      key, or a quantity that would become negative. */
  lemma UpdateStockErrors(db: Db, articleId: int, agenceId: int, delta: int, commentaire: Option<string>)
    ensures var (r, db') := UpdateStock(db, articleId, agenceId, delta, commentaire);
      var q := Quantite(db.stock, articleId, agenceId);
      && (r == Err(StockNonTrouve) <==> q.None?)
      && (r == Err(StockInsuffisant) <==> q.Some? && q.value + delta < 0)
      && (r.Err? <==> q.None? || q.value + delta < 0)
      && (r.Err? ==> db' == db)
  {
  }

  /** On success the key holds `before + delta` (never negative), every other key keeps
      its quantity, the catalog and the demandes are untouched, and exactly one movement
      is appended: its type is 'entree' iff delta > 0, its quantity is |delta|, and it
      carries the before and after values. */
  lemma UpdateStockSuccess(db: Db, articleId: int, agenceId: int, delta: int, commentaire: Option<string>)
    requires UpdateStock(db, articleId, agenceId, delta, commentaire).0.Ok?
    ensures var (r, db') := UpdateStock(db, articleId, agenceId, delta, commentaire);
      var before := r.value.stockAvant;
      && Quantite(db.stock, articleId, agenceId) == Some(before)
      && r.value.stockApres == before + delta >= 0
      && Quantite(db'.stock, articleId, agenceId) == Some(before + delta)
      && (forall a, g :: a != articleId || g != agenceId ==> Quantite(db'.stock, a, g) == Quantite(db.stock, a, g))
      && |db'.stock| == |db.stock|
      && (forall i :: 0 <= i < |db.stock| ==>
            db'.stock[i] == if HasKey(db.stock[i], articleId, agenceId) then db.stock[i].(quantite := before + delta) else db.stock[i])
      && db'.agences == db.agences && db'.articles == db.articles
      && db'.demandes == db.demandes && db'.lastDemandeId == db.lastDemandeId
      && |db'.historique| == |db.historique| + 1
      && db'.historique[..|db.historique|] == db.historique
      && var m := db'.historique[|db.historique|];
      && m.articleId == articleId && m.agenceId == agenceId
      && (m.typeMouvement == Entree <==> delta > 0)
      && (m.typeMouvement == Sortie <==> delta <= 0)
      && m.quantite == Abs(delta)
      && m.stockAvant == before && m.stockApres == before + delta
      && m.demandeId.None? && m.utilisateur.None? && m.commentaire == commentaire
  {
    var (r, db') := UpdateStock(db, articleId, agenceId, delta, commentaire);
    var after := r.value.stockApres;
    forall a, g | a != articleId || g != agenceId
      ensures Quantite(db'.stock, a, g) == Quantite(db.stock, a, g)
    {
      SetQuantiteLookup(db.stock, articleId, agenceId, after, a, g);
    }
    SetQuantiteLookup(db.stock, articleId, agenceId, after, articleId, agenceId);
    assert db'.historique[..|db.historique|] == db.historique;
  }

  lemma UpdateStockPreservesValid(db: Db, articleId: int, agenceId: int, delta: int, commentaire: Option<string>)
    requires Valid(db)
    ensures Valid(UpdateStock(db, articleId, agenceId, delta, commentaire).1)
  {
    var r := UpdateStock(db, articleId, agenceId, delta, commentaire).0;
    if r.Ok? {
      var m := AdjustmentMouvement(articleId, agenceId, delta, r.value.stockAvant, commentaire);
      assert Recordable(db, m);
      RecordKeepsRows(db, m);
      RecordKeepsHistory(db, m);
      RecordKeepsDemandes(db, m);
    }
  }

  /** Adding `delta` and then `-delta` to a key gives back the stock table it started
      from, with two movements appended whose signed changes cancel. It needs only what
      `Valid` gives: unique keys and a non-negative quantity for the key. */
  lemma UpdateStockRoundTrip(db: Db, articleId: int, agenceId: int, delta: int, c1: Option<string>, c2: Option<string>)
    requires UniqueKeys(db.stock)
    requires Quantite(db.stock, articleId, agenceId).Some? && Quantite(db.stock, articleId, agenceId).value >= 0
    requires UpdateStock(db, articleId, agenceId, delta, c1).0.Ok?
    ensures var db1 := UpdateStock(db, articleId, agenceId, delta, c1).1;
      var (r2, db2) := UpdateStock(db1, articleId, agenceId, -delta, c2);
      && r2.Ok?
      && db2.stock == db.stock
      && |db2.historique| == |db.historique| + 2
      && db2.historique[..|db.historique|] == db.historique
      && Delta(db2.historique[|db.historique|]) + Delta(db2.historique[|db.historique| + 1]) == 0
  {
    RoundTripStock(db.stock, articleId, agenceId, delta);
    var db1 := UpdateStock(db, articleId, agenceId, delta, c1).1;
    var db2 := UpdateStock(db1, articleId, agenceId, -delta, c2).1;
    assert db2.historique[..|db.historique|] == db.historique;
  }

  /** The table part of the round trip: the key selects the same row before and after the
      first update, and the second update writes back the original quantity. */
  lemma RoundTripStock(rows: seq<StockRow>, articleId: int, agenceId: int, delta: int)
    requires UniqueKeys(rows)
    requires Find(rows, articleId, agenceId).Some?
    ensures var before := Quantite(rows, articleId, agenceId).value;
      var rows1 := SetQuantite(rows, articleId, agenceId, before + delta);
      && Quantite(rows1, articleId, agenceId) == Some(before + delta)
      && SetQuantite(rows1, articleId, agenceId, before) == rows
  {
    var before := Quantite(rows, articleId, agenceId).value;
    SetQuantiteLookup(rows, articleId, agenceId, before + delta, articleId, agenceId);
    SetQuantiteTwice(rows, articleId, agenceId, before + delta, before);
    SetQuantiteSame(rows, articleId, agenceId);
  }

  /** The ledger applied to a list of adjustments of one key, one call after another. */
  function UpdateAll(db: Db, articleId: int, agenceId: int, deltas: seq<int>): Db
    decreases |deltas|
  {
    if |deltas| == 0 then db
    else UpdateAll(UpdateStock(db, articleId, agenceId, deltas[0], None).1, articleId, agenceId, deltas[1..])
  }

  function Sum(s: seq<int>): int {
    if |s| == 0 then 0 else s[0] + Sum(s[1..])
  }

  /** Adjustments applied in an order where no running total goes negative all succeed:
      no update is lost, and the final quantity is the initial one plus their sum. */
  lemma {:induction false} UpdateAllSum(db: Db, articleId: int, agenceId: int, deltas: seq<int>)
    requires Quantite(db.stock, articleId, agenceId).Some?
    requires forall k :: 0 <= k <= |deltas| ==> Quantite(db.stock, articleId, agenceId).value + Sum(deltas[..k]) >= 0
    ensures Quantite(UpdateAll(db, articleId, agenceId, deltas).stock, articleId, agenceId)
         == Some(Quantite(db.stock, articleId, agenceId).value + Sum(deltas))
    ensures |UpdateAll(db, articleId, agenceId, deltas).historique| == |db.historique| + |deltas|
    decreases |deltas|
  {
    if |deltas| > 0 {
      var before := Quantite(db.stock, articleId, agenceId).value;
      assert deltas[..1] == [deltas[0]];
      assert before + deltas[0] >= 0 by {
        assert before + Sum(deltas[..1]) >= 0;
      }
      var db1 := UpdateStock(db, articleId, agenceId, deltas[0], None).1;
      SetQuantiteLookup(db.stock, articleId, agenceId, before + deltas[0], articleId, agenceId);
      assert Quantite(db1.stock, articleId, agenceId) == Some(before + deltas[0]);
      forall k | 0 <= k <= |deltas[1..]|
        ensures Quantite(db1.stock, articleId, agenceId).value + Sum(deltas[1..][..k]) >= 0
      {
        assert deltas[..k + 1] == [deltas[0]] + deltas[1..][..k];
        assert before + Sum(deltas[..k + 1]) >= 0;
      }
      UpdateAllSum(db1, articleId, agenceId, deltas[1..]);
    }
  }

  // ----------------------------------------------------------------------------
  // POST /api/demandes/create

  /** Inserts a pending demande under the next AUTOINCREMENT id, after checking the
      agence and then the article; the quantity is stored as given. */
  function CreateDemande(db: Db, req: DemandeCreate): (Result<int>, Db) {
    if req.agenceId !in db.agences then (Err(AgenceNonTrouvee), db)
    else if req.articleId !in db.articles then (Err(ArticleNonTrouve), db)
    else
      var id := db.lastDemandeId + 1;
      var d := Demande(req.ticketServicenow, req.agenceId, req.articleId, req.clientNom, req.clientEmail,
                       req.quantite, EnAttente, None, req.commentaire);
      (Ok(id), db.(demandes := db.demandes[id := d], lastDemandeId := id))
  }

  /** An unknown agence is reported first, then an unknown article; a failure changes nothing. */
  lemma CreateDemandeErrors(db: Db, req: DemandeCreate)
    ensures var (r, db') := CreateDemande(db, req);
      && (r == Err(AgenceNonTrouvee) <==> req.agenceId !in db.agences)
      && (r == Err(ArticleNonTrouve) <==> req.agenceId in db.agences && req.articleId !in db.articles)
      && (r.Ok? <==> req.agenceId in db.agences && req.articleId in db.articles)
      && (r.Err? ==> db' == db)
  {
  }

  /** On success the new demande gets a fresh id, is pending with no validator and
      holds the requested quantity as given (even zero or negative); no existing demande,
      no stock row and no movement changes. */
  lemma CreateDemandeSuccess(db: Db, req: DemandeCreate)
    requires Valid(db)
    requires CreateDemande(db, req).0.Ok?
    ensures var (r, db') := CreateDemande(db, req);
      var id := r.value;
      && id !in db.demandes
      && db'.lastDemandeId == id == db.lastDemandeId + 1
      && db'.demandes.Keys == db.demandes.Keys + {id}
      && (forall k :: k in db.demandes ==> db'.demandes[k] == db.demandes[k])
      && db'.demandes[id].statut == EnAttente && db'.demandes[id].validePar.None?
      && db'.demandes[id].quantite == req.quantite
      && db'.demandes[id].agenceId == req.agenceId && db'.demandes[id].articleId == req.articleId
      && db'.demandes[id] == Demande(req.ticketServicenow, req.agenceId, req.articleId, req.clientNom,
                                     req.clientEmail, req.quantite, EnAttente, None, req.commentaire)
      && db'.stock == db.stock && db'.historique == db.historique
      && db'.agences == db.agences && db'.articles == db.articles
  {
    assert forall k :: k in db.demandes ==> k <= db.lastDemandeId by {
      forall k | k in db.demandes ensures k <= db.lastDemandeId {
        assert DemandeValid(db, k);
      }
    }
  }

  lemma CreateDemandePreservesValid(db: Db, req: DemandeCreate)
    requires Valid(db)
    ensures Valid(CreateDemande(db, req).1)
  {
    var (r, db') := CreateDemande(db, req);
    if r.Ok? {
      CreateDemandeSuccess(db, req);
      var id := r.value;
      forall j | 0 <= j < |db.historique| ensures db.historique[j].demandeId != Some(id) {
        assert MouvementValid(db, db.historique[j]);
      }
      LinkedCountZero(db.historique, id);
      forall k | k in db'.demandes ensures DemandeValid(db', k) {
        if k != id {
          assert DemandeValid(db, k);
        }
      }
      forall i | 0 <= i < |db'.stock| ensures RowValid(db', db'.stock[i]) {
        assert RowValid(db, db.stock[i]);
      }
      forall j | 0 <= j < |db'.historique| ensures MouvementValid(db', db'.historique[j]) {
        assert MouvementValid(db, db.historique[j]);
      }
    }
  }

  // ----------------------------------------------------------------------------
  // POST /api/demandes/{demande_id}/valider

  /** The movement a validation records: type 'demande', linked to the demande, with
      the validator as utilisateur. */
  function FulfilmentMouvement(d: Demande, demandeId: int, utilisateur: string, before: int): Mouvement {
    Mouvement(d.articleId, d.agenceId, MouvementDemande, d.quantite, before, before - d.quantite,
              Some(demandeId), Some(utilisateur), None)
  }

  /** Fulfils a pending demande: the key must have a row holding at least the requested
      quantity; the stock is decremented, the demande becomes 'validee' with its
      validator, and one movement linked to it is recorded. */
  function ValiderDemande(db: Db, demandeId: int, utilisateur: string): (Result<Change>, Db) {
    if demandeId !in db.demandes then (Err(DemandeNonTrouvee), db)
    else
      var d := db.demandes[demandeId];
      if d.statut != EnAttente then (Err(DemandeDejaTraitee), db)
      else match Find(db.stock, d.articleId, d.agenceId)
        case None => (Err(StockInsuffisant), db)
        case Some(i) =>
          var before := db.stock[i].quantite;
          if before < d.quantite then (Err(StockInsuffisant), db)
          else
            var validated := d.(statut := Validee, validePar := Some(utilisateur));
            (Ok(Change(before, before - d.quantite)),
             Record(db.(demandes := db.demandes[demandeId := validated]),
                    FulfilmentMouvement(d, demandeId, utilisateur, before)))
  }

  /** The three failures, in the order they are checked, and only they leave the
      database unchanged. */
  lemma ValiderDemandeErrors(db: Db, demandeId: int, utilisateur: string)
    ensures var (r, db') := ValiderDemande(db, demandeId, utilisateur);
      && (r == Err(DemandeNonTrouvee) <==> demandeId !in db.demandes)
      && (r == Err(DemandeDejaTraitee) <==> demandeId in db.demandes && db.demandes[demandeId].statut != EnAttente)
      && (r == Err(StockInsuffisant) <==>
            demandeId in db.demandes && db.demandes[demandeId].statut == EnAttente &&
            var d := db.demandes[demandeId];
            var q := Quantite(db.stock, d.articleId, d.agenceId);
            q.None? || q.value < d.quantite)
      && (r.Ok? <==>
            demandeId in db.demandes && db.demandes[demandeId].statut == EnAttente &&
            var d := db.demandes[demandeId];
            var q := Quantite(db.stock, d.articleId, d.agenceId);
            q.Some? && q.value >= d.quantite)
      && (r.Err? ==> db' == db)
  {
  }

  /** On success the key goes from `before` down to `before - quantite` (never negative),
      the demande is 'validee' with `utilisateur` as validator, no other demande, key,
      or catalog entry changes, and exactly one 'demande' movement linked to the demande
      and carrying its quantity and the before and after values is appended. */
  lemma ValiderDemandeSuccess(db: Db, demandeId: int, utilisateur: string)
    requires ValiderDemande(db, demandeId, utilisateur).0.Ok?
    ensures demandeId in db.demandes
    ensures var (r, db') := ValiderDemande(db, demandeId, utilisateur);
      var d := db.demandes[demandeId];
      var before := r.value.stockAvant;
      && d.statut == EnAttente
      && Quantite(db.stock, d.articleId, d.agenceId) == Some(before)
      && r.value.stockApres == before - d.quantite
      && before - d.quantite >= 0
      && Quantite(db'.stock, d.articleId, d.agenceId) == Some(before - d.quantite)
      && (forall a, g :: a != d.articleId || g != d.agenceId ==> Quantite(db'.stock, a, g) == Quantite(db.stock, a, g))
      && |db'.stock| == |db.stock|
      && (forall i :: 0 <= i < |db.stock| ==>
            db'.stock[i] == if HasKey(db.stock[i], d.articleId, d.agenceId) then db.stock[i].(quantite := before - d.quantite) else db.stock[i])
      && db'.demandes == db.demandes[demandeId := d.(statut := Validee, validePar := Some(utilisateur))]
      && db'.lastDemandeId == db.lastDemandeId
      && db'.agences == db.agences && db'.articles == db.articles
      && |db'.historique| == |db.historique| + 1
      && db'.historique[..|db.historique|] == db.historique
      && var m := db'.historique[|db.historique|];
      && m.typeMouvement == MouvementDemande && m.demandeId == Some(demandeId)
      && m.articleId == d.articleId && m.agenceId == d.agenceId
      && m.quantite == d.quantite && m.stockAvant == before && m.stockApres == before - d.quantite
      && m.utilisateur == Some(utilisateur) && m.commentaire.None?
  {
    var (r, db') := ValiderDemande(db, demandeId, utilisateur);
    var d := db.demandes[demandeId];
    var after := r.value.stockApres;
    forall a, g | a != d.articleId || g != d.agenceId
      ensures Quantite(db'.stock, a, g) == Quantite(db.stock, a, g)
    {
      SetQuantiteLookup(db.stock, d.articleId, d.agenceId, after, a, g);
    }
    SetQuantiteLookup(db.stock, d.articleId, d.agenceId, after, d.articleId, d.agenceId);
    assert db'.historique[..|db.historique|] == db.historique;
  }

  lemma {:induction false} LinkedCountPositive(h: seq<Mouvement>, j: nat, demandeId: int)
    requires j < |h| && h[j].demandeId == Some(demandeId)
    ensures LinkedCount(h, demandeId) > 0
  {
    if j < |h| - 1 {
      LinkedCountPositive(h[..|h| - 1], j, demandeId);
    }
  }

  lemma ValiderDemandePreservesValid(db: Db, demandeId: int, utilisateur: string)
    requires Valid(db)
    ensures Valid(ValiderDemande(db, demandeId, utilisateur).1)
  {
    var r := ValiderDemande(db, demandeId, utilisateur).0;
    if r.Ok? {
      var d := db.demandes[demandeId];
      var validated := d.(statut := Validee, validePar := Some(utilisateur));
      var db1 := db.(demandes := db.demandes[demandeId := validated]);
      var m := FulfilmentMouvement(d, demandeId, utilisateur, r.value.stockAvant);
      assert DemandeValid(db, demandeId);
      ValidationKeepsRowsAndHistory(db, demandeId, validated);
      assert Recordable(db1, m);
      RecordKeepsRows(db1, m);
      RecordKeepsHistory(db1, m);
      ValidationKeepsDemandes(db, demandeId, utilisateur, r.value.stockAvant);
    }
  }

  /** Marking a demande that no movement is linked to yet keeps the stock rows and the
      history valid. */
  lemma ValidationKeepsRowsAndHistory(db: Db, demandeId: int, validated: Demande)
    requires RowsValid(db) && HistoryValid(db)
    requires LinkedCount(db.historique, demandeId) == 0
    ensures var db1 := db.(demandes := db.demandes[demandeId := validated]);
      RowsValid(db1) && HistoryValid(db1)
  {
    var db1 := db.(demandes := db.demandes[demandeId := validated]);
    forall i | 0 <= i < |db1.stock| ensures RowValid(db1, db1.stock[i]) {
      assert RowValid(db, db.stock[i]);
    }
    forall j | 0 <= j < |db1.historique| ensures MouvementValid(db1, db1.historique[j]) {
      assert MouvementValid(db, db.historique[j]);
      if db.historique[j].demandeId == Some(demandeId) {
        LinkedCountPositive(db.historique, j, demandeId);
      }
    }
  }

  /** Validating a pending demande and recording its movement keeps every demande valid:
      the validated one now has one linked movement, the others keep their count. */
  lemma ValidationKeepsDemandes(db: Db, demandeId: int, utilisateur: string, before: int)
    requires DemandesValid(db)
    requires demandeId in db.demandes && db.demandes[demandeId].statut == EnAttente
    ensures var d := db.demandes[demandeId];
      var db1 := db.(demandes := db.demandes[demandeId := d.(statut := Validee, validePar := Some(utilisateur))]);
      DemandesValid(Record(db1, FulfilmentMouvement(d, demandeId, utilisateur, before)))
  {
    var d := db.demandes[demandeId];
    var db1 := db.(demandes := db.demandes[demandeId := d.(statut := Validee, validePar := Some(utilisateur))]);
    var m := FulfilmentMouvement(d, demandeId, utilisateur, before);
    var db' := Record(db1, m);
    forall id | id in db'.demandes ensures DemandeValid(db', id) {
      LinkedCountAppend(db.historique, m, id);
      assert DemandeValid(db, id);
    }
  }

  /** A demande is fulfilled at most once: validating it again fails and changes nothing. */
  lemma ValiderDemandeOnce(db: Db, demandeId: int, u1: string, u2: string)
    requires ValiderDemande(db, demandeId, u1).0.Ok?
    ensures var db1 := ValiderDemande(db, demandeId, u1).1;
      ValiderDemande(db1, demandeId, u2) == (Err(DemandeDejaTraitee), db1)
  {
  }

  /** Validating a demande with a negative quantity, which creation accepts, passes the
      stock check and raises the stock instead of lowering it. */
  lemma NegativeDemandeRaisesStock(db: Db, demandeId: int, utilisateur: string)
    requires Valid(db)
    requires demandeId in db.demandes && db.demandes[demandeId].statut == EnAttente
    requires db.demandes[demandeId].quantite < 0
    ensures var r := ValiderDemande(db, demandeId, utilisateur).0;
      r.Ok? && r.value.stockApres > r.value.stockAvant
  {
    var d := db.demandes[demandeId];
    assert DemandeValid(db, demandeId);
    var f := Find(db.stock, d.articleId, d.agenceId).value;
    assert RowValid(db, db.stock[f]);
  }
}
