/**
 * The rows of the stock database: the `stock`, `demandes` and `historique`
 * tables, the failures the handlers raise, and the two operations every handler
 * performs on the `stock` table: selecting the row of an (article, agence) key
 * and updating the quantity of that key.
 */
module Schema {

  datatype Option<T> = None | Some(value: T)

  /** The failures of the handlers; each one is an HTTP error with its own status and detail. */
  datatype Error =
    | StockNonTrouve      // 404: no stock row for the (article, agence) key
    | AgenceNonTrouvee    // 404: unknown agence id
    | ArticleNonTrouve    // 404: unknown article id
    | DemandeNonTrouvee   // 404: unknown demande id
    | DemandeDejaTraitee  // 400: the demande is no longer 'en_attente'
    | StockInsuffisant    // 400: the quantity would become negative

  datatype Result<T> = Ok(value: T) | Err(error: Error)

  /** One row of the `stock` table. */
  datatype StockRow = StockRow(articleId: int, agenceId: int, quantite: int, stockMin: int)

  /** The `statut` column of `demandes`: 'en_attente' (the column default) or 'validee'. */
  datatype Statut = EnAttente | Validee

  /** One row of the `demandes` table (timestamps are not modelled). */
  datatype Demande = Demande(
    ticketServicenow: string,
    agenceId: int,
    articleId: int,
    clientNom: string,
    clientEmail: Option<string>,
    quantite: int,
    statut: Statut,
    validePar: Option<string>,
    commentaire: Option<string>)

  /** The `type_mouvement` column of `historique`: 'entree', 'sortie' or 'demande'. */
  datatype TypeMouvement = Entree | Sortie | MouvementDemande

  /** One row of the `historique` table (the timestamp is not modelled). */
  datatype Mouvement = Mouvement(
    articleId: int,
    agenceId: int,
    typeMouvement: TypeMouvement,
    quantite: int,
    stockAvant: int,
    stockApres: int,
    demandeId: Option<int>,
    utilisateur: Option<string>,
    commentaire: Option<string>)

  predicate HasKey(row: StockRow, articleId: int, agenceId: int) {
    row.articleId == articleId && row.agenceId == agenceId
  }

  /** The table constraint UNIQUE(article_id, agence_id). */
  ghost predicate UniqueKeys(rows: seq<StockRow>) {
    forall i, j :: 0 <= i < j < |rows| ==> !HasKey(rows[j], rows[i].articleId, rows[i].agenceId)
  }

  /** `SELECT ... FROM stock WHERE article_id = ? AND agence_id = ?` followed by
      `fetchone()`: the index of the first row of the key, if there is one. */
  function Find(rows: seq<StockRow>, articleId: int, agenceId: int): (r: Option<nat>)
    ensures r.Some? ==> r.value < |rows| && HasKey(rows[r.value], articleId, agenceId)
    ensures r.Some? ==> forall i :: 0 <= i < r.value ==> !HasKey(rows[i], articleId, agenceId)
    ensures r.None? <==> forall i :: 0 <= i < |rows| ==> !HasKey(rows[i], articleId, agenceId)
  {
    FindFrom(rows, 0, articleId, agenceId)
  }

  /** The scan behind `Find`, from position `k` on. */
  function FindFrom(rows: seq<StockRow>, k: nat, articleId: int, agenceId: int): (r: Option<nat>)
    requires k <= |rows|
    ensures r.Some? ==> k <= r.value < |rows| && HasKey(rows[r.value], articleId, agenceId)
    ensures r.Some? ==> forall i :: k <= i < r.value ==> !HasKey(rows[i], articleId, agenceId)
    ensures r.None? <==> forall i :: k <= i < |rows| ==> !HasKey(rows[i], articleId, agenceId)
    decreases |rows| - k
  {
    if k == |rows| then None
    else if HasKey(rows[k], articleId, agenceId) then Some(k)
    else FindFrom(rows, k + 1, articleId, agenceId)
  }

  /** The quantity stored for a key, if the key has a row. */
  function Quantite(rows: seq<StockRow>, articleId: int, agenceId: int): Option<int> {
    match Find(rows, articleId, agenceId)
    case None => None
    case Some(i) => Some(rows[i].quantite)
  }

  /** `UPDATE stock SET quantite = ? WHERE article_id = ? AND agence_id = ?`:
      every row of the key gets the new quantity, every other row is kept. */
  function SetQuantite(rows: seq<StockRow>, articleId: int, agenceId: int, quantite: int): seq<StockRow> {
    seq(|rows|, i requires 0 <= i < |rows| =>
      if HasKey(rows[i], articleId, agenceId) then rows[i].(quantite := quantite) else rows[i])
  }

  /** Under the uniqueness constraint the row a key selects is the only row of that key. */
  lemma FindUnique(rows: seq<StockRow>, i: nat)
    requires UniqueKeys(rows)
    requires i < |rows|
    ensures Find(rows, rows[i].articleId, rows[i].agenceId) == Some(i)
  {
    assert Find(rows, rows[i].articleId, rows[i].agenceId).Some?;
  }

  /** An update of quantities keeps every key, so it keeps what `Find` selects and the constraint. */
  lemma SetQuantiteKeepsKeys(rows: seq<StockRow>, articleId: int, agenceId: int, quantite: int, a: int, g: int)
    ensures Find(SetQuantite(rows, articleId, agenceId, quantite), a, g) == Find(rows, a, g)
    ensures UniqueKeys(rows) ==> UniqueKeys(SetQuantite(rows, articleId, agenceId, quantite))
  {
    var r := SetQuantite(rows, articleId, agenceId, quantite);
    assert forall i :: 0 <= i < |rows| ==> (HasKey(r[i], a, g) <==> HasKey(rows[i], a, g));
    var f, f' := Find(rows, a, g), Find(r, a, g);
    if f.Some? && f'.Some? {
      assert HasKey(rows[f'.value], a, g);
      assert HasKey(r[f.value], a, g);
    }
  }

  /** After the update the key holds the new quantity and every other key keeps its quantity. */
  lemma SetQuantiteLookup(rows: seq<StockRow>, articleId: int, agenceId: int, quantite: int, a: int, g: int)
    ensures Quantite(SetQuantite(rows, articleId, agenceId, quantite), a, g) ==
      if a == articleId && g == agenceId && Find(rows, a, g).Some? then Some(quantite)
      else Quantite(rows, a, g)
  {
    SetQuantiteKeepsKeys(rows, articleId, agenceId, quantite, a, g);
  }

  /** Writing back the quantity a unique key already holds gives back the same table. */
  lemma SetQuantiteSame(rows: seq<StockRow>, articleId: int, agenceId: int)
    requires UniqueKeys(rows)
    requires Find(rows, articleId, agenceId).Some?
    ensures SetQuantite(rows, articleId, agenceId, Quantite(rows, articleId, agenceId).value) == rows
  {
    var f := Find(rows, articleId, agenceId).value;
    var r := SetQuantite(rows, articleId, agenceId, rows[f].quantite);
    forall i | 0 <= i < |rows| ensures r[i] == rows[i] {
      if HasKey(rows[i], articleId, agenceId) {
        FindUnique(rows, i);
      }
    }
  }

  /** Two updates of the same key: the second one wins. */
  lemma SetQuantiteTwice(rows: seq<StockRow>, articleId: int, agenceId: int, q1: int, q2: int)
    ensures SetQuantite(SetQuantite(rows, articleId, agenceId, q1), articleId, agenceId, q2)
         == SetQuantite(rows, articleId, agenceId, q2)
  {
  }
}
