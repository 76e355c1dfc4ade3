/**
 * Any sequence of calls to the three writing handlers, starting from the
 * database the creation script leaves: what holds in every reachable state.
 */
module Workflow {
  import opened Schema
  import opened InitialStock
  import opened Ledger

  /** One call to a writing endpoint. */
  datatype Call =
    | Adjust(articleId: int, agenceId: int, delta: int, commentaire: Option<string>)
    | Create(req: DemandeCreate)
    | Validate(demandeId: int, utilisateur: string)

  /** The database after one call, whether it succeeds or fails. */
  function Apply(db: Db, c: Call): Db {
    match c
    case Adjust(a, g, delta, commentaire) => UpdateStock(db, a, g, delta, commentaire).1
    case Create(req) => CreateDemande(db, req).1
    case Validate(id, u) => ValiderDemande(db, id, u).1
  }

  /** The database after the calls, in order. */
  function Run(db: Db, calls: seq<Call>): Db {
    if |calls| == 0 then db
    else Apply(Run(db, calls[..|calls| - 1]), calls[|calls| - 1])
  }

  lemma ApplyPreservesValid(db: Db, c: Call)
    requires Valid(db)
    ensures Valid(Apply(db, c))
  {
    match c
    case Adjust(a, g, delta, commentaire) => UpdateStockPreservesValid(db, a, g, delta, commentaire);
    case Create(req) => CreateDemandePreservesValid(db, req);
    case Validate(id, u) => ValiderDemandePreservesValid(db, id, u);
  }

  /** Every call keeps the invariant, so every sequence of calls does. */
  lemma {:induction false} RunPreservesValid(db: Db, calls: seq<Call>)
    requires Valid(db)
    ensures Valid(Run(db, calls))
  {
    if |calls| > 0 {
      RunPreservesValid(db, calls[..|calls| - 1]);
      ApplyPreservesValid(Run(db, calls[..|calls| - 1]), calls[|calls| - 1]);
    }
  }

  /** A call appends at most one movement and keeps the ones before it. */
  lemma ApplyExtendsHistory(db: Db, c: Call)
    ensures |db.historique| <= |Apply(db, c).historique| <= |db.historique| + 1
    ensures Apply(db, c).historique[..|db.historique|] == db.historique
  {
    var h, h' := db.historique, Apply(db, c).historique;
    assert h' == h || exists m :: h' == h + [m];
  }

  /** A sequence of calls never removes or rewrites a recorded movement. */
  lemma {:induction false} RunExtendsHistory(db: Db, calls: seq<Call>)
    ensures |db.historique| <= |Run(db, calls).historique|
    ensures Run(db, calls).historique[..|db.historique|] == db.historique
  {
    if |calls| > 0 {
      var prev := Run(db, calls[..|calls| - 1]);
      RunExtendsHistory(db, calls[..|calls| - 1]);
      ApplyExtendsHistory(prev, calls[|calls| - 1]);
      var h := Run(db, calls).historique;
      assert h[..|prev.historique|][..|db.historique|] == h[..|db.historique|];
    }
  }

  /** No call changes a demande once it is validated. */
  lemma ApplyKeepsValidated(db: Db, c: Call, id: int)
    requires Valid(db)
    requires id in db.demandes && db.demandes[id].statut == Validee
    ensures id in Apply(db, c).demandes && Apply(db, c).demandes[id] == db.demandes[id]
  {
    match c
    case Adjust(a, g, delta, commentaire) =>
    case Create(req) =>
      assert DemandeValid(db, id);
    case Validate(other, u) =>
  }

  /** Once validated, a demande stays validated by the same user, and it is linked to
      exactly one movement after any further calls: its stock is taken at most once. */
  lemma {:induction false} ValidatedStaysValidated(db: Db, calls: seq<Call>, id: int)
    requires Valid(db)
    requires id in db.demandes && db.demandes[id].statut == Validee
    ensures var db' := Run(db, calls);
      && id in db'.demandes && db'.demandes[id] == db.demandes[id]
      && LinkedCount(db'.historique, id) == 1
  {
    if |calls| > 0 {
      var prev := Run(db, calls[..|calls| - 1]);
      ValidatedStaysValidated(db, calls[..|calls| - 1], id);
      RunPreservesValid(db, calls[..|calls| - 1]);
      ApplyKeepsValidated(prev, calls[|calls| - 1], id);
    }
    RunPreservesValid(db, calls);
    assert DemandeValid(Run(db, calls), id);
  }

  /** In every state reachable from the created database: unique keys, every quantity
      non-negative and equal to the net of its key's movements, and each demande linked
      to one movement if validated and to none if pending. */
  lemma Reachable(agenceIds: seq<int>, articleIds: seq<int>, calls: seq<Call>)
    requires Distinct(agenceIds) && Distinct(articleIds)
    ensures var db := Run(InitialDb(agenceIds, articleIds), calls);
      && UniqueKeys(db.stock)
      && (forall i :: 0 <= i < |db.stock| ==>
            0 <= db.stock[i].quantite == NetFor(db.historique, db.stock[i].articleId, db.stock[i].agenceId))
      && (forall id :: id in db.demandes ==>
            LinkedCount(db.historique, id) == (if db.demandes[id].statut == Validee then 1 else 0))
  {
    InitialDbValid(agenceIds, articleIds);
    RunPreservesValid(InitialDb(agenceIds, articleIds), calls);
    var db := Run(InitialDb(agenceIds, articleIds), calls);
    assert forall i :: 0 <= i < |db.stock| ==> RowValid(db, db.stock[i]);
    assert forall id :: id in db.demandes ==> DemandeValid(db, id);
  }
}
