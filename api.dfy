/**
 * The API process over its database: the tables are fields that the handlers
 * update in place, one statement of the handler at a time, and each handler is
 * proved to leave exactly the state the corresponding `Ledger` transition
 * describes, so every property proved there holds of the service.
 */
module Api {
  import opened Schema
  import opened InitialStock
  import Ledger

  class StockService {
    var agences: set<int>
    var articles: set<int>
    var stock: seq<StockRow>
    var demandes: map<int, Demande>
    var lastDemandeId: int
    var historique: seq<Mouvement>

    /** The tables as one value. */
    function Snapshot(): Ledger.Db
      reads this
    {
      Ledger.Db(agences, articles, stock, demandes, lastDemandeId, historique)
    }

    ghost predicate Valid()
      reads this
    {
      Ledger.Valid(Snapshot())
    }

    /** The creation script: the catalog, then the stock rows built by the nested
        loop over agences and articles, no demande and no movement. */
    constructor (agenceIds: seq<int>, articleIds: seq<int>)
      requires Distinct(agenceIds) && Distinct(articleIds)
      ensures Valid()
      ensures Snapshot() == Ledger.InitialDb(agenceIds, articleIds)
    {
      agences := set a | a in agenceIds;
      articles := set a | a in articleIds;
      var stockData := BuildStockData(agenceIds, articleIds);
      stock := stockData;
      demandes := map[];
      lastDemandeId := 0;
      historique := [];
      Ledger.InitialDbValid(agenceIds, articleIds);
    }

    /** `POST /api/stock/update`. */
    method UpdateStock(articleId: int, agenceId: int, delta: int, commentaire: Option<string>) returns (r: Result<Ledger.Change>)
      requires Valid()
      modifies this
      ensures Valid()
      ensures (r, Snapshot()) == Ledger.UpdateStock(old(Snapshot()), articleId, agenceId, delta, commentaire)
    {
      ghost var db := Snapshot();
      Ledger.UpdateStockPreservesValid(db, articleId, agenceId, delta, commentaire);
      var found := Find(stock, articleId, agenceId);
      if found.None? {
        return Err(StockNonTrouve);
      }
      var stockAvant := stock[found.value].quantite;
      var stockApres := stockAvant + delta;
      if stockApres < 0 {
        return Err(StockInsuffisant);
      }
      stock := SetQuantite(stock, articleId, agenceId, stockApres);
      var typeMouvement := if delta > 0 then Entree else Sortie;
      var mouvement := Mouvement(articleId, agenceId, typeMouvement, Ledger.Abs(delta),
                                 stockAvant, stockApres, None, None, commentaire);
      historique := historique + [mouvement];
      r := Ok(Ledger.Change(stockAvant, stockApres));
      assert mouvement == Ledger.AdjustmentMouvement(articleId, agenceId, delta, stockAvant, commentaire);
      assert Snapshot() == Ledger.Record(db, mouvement);
    }

    /** `POST /api/demandes/create`; the new id is `lastrowid`. */
    method CreateDemande(req: Ledger.DemandeCreate) returns (r: Result<int>)
      requires Valid()
      modifies this
      ensures Valid()
      ensures (r, Snapshot()) == Ledger.CreateDemande(old(Snapshot()), req)
    {
      Ledger.CreateDemandePreservesValid(Snapshot(), req);
      if req.agenceId !in agences {
        return Err(AgenceNonTrouvee);
      }
      if req.articleId !in articles {
        return Err(ArticleNonTrouve);
      }
      var demandeId := lastDemandeId + 1;
      demandes := demandes[demandeId := Demande(req.ticketServicenow, req.agenceId, req.articleId, req.clientNom,
                                                 req.clientEmail, req.quantite, EnAttente, None, req.commentaire)];
      lastDemandeId := demandeId;
      r := Ok(demandeId);
    }

    /** `POST /api/demandes/{demande_id}/valider`; the validator defaults to "admin". */
    method ValiderDemande(demandeId: int, utilisateur: string := "admin") returns (r: Result<Ledger.Change>)
      requires Valid()
      modifies this
      ensures Valid()
      ensures (r, Snapshot()) == Ledger.ValiderDemande(old(Snapshot()), demandeId, utilisateur)
    {
      Ledger.ValiderDemandePreservesValid(Snapshot(), demandeId, utilisateur);
      if demandeId !in demandes {
        return Err(DemandeNonTrouvee);
      }
      var demande := demandes[demandeId];
      if demande.statut != EnAttente {
        return Err(DemandeDejaTraitee);
      }
      var found := Find(stock, demande.articleId, demande.agenceId);
      if found.None? || stock[found.value].quantite < demande.quantite {
        return Err(StockInsuffisant);
      }
      var stockAvant := stock[found.value].quantite;
      var stockApres := stockAvant - demande.quantite;
      stock := SetQuantite(stock, demande.articleId, demande.agenceId, stockApres);
      demandes := demandes[demandeId := demande.(statut := Validee, validePar := Some(utilisateur))];
      historique := historique + [Mouvement(demande.articleId, demande.agenceId, MouvementDemande, demande.quantite,
                                            stockAvant, stockApres, Some(demandeId), Some(utilisateur), None)];
      r := Ok(Ledger.Change(stockAvant, stockApres));
    }
  }
}
