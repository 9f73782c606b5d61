/**
 * `app/services/vector_store.py`, reduced to its boundary: storing never raises, and
 * searching yields a list of document texts. The embedding model and the similarity
 * index are not modelled.
 */
module VectorStore {
  import opened Wrappers
  import opened Json

  /** One call to `store_invoice_analysis`: the raw analysis and the invoice's text. */
  datatype StoredAnalysis = StoredAnalysis(analysis: Dict, invoiceText: string)

  /** `store_invoice_analysis`: appends to the store; earlier entries are never touched. */
  function StoreInvoiceAnalysis(log: seq<StoredAnalysis>, analysis: Dict, invoiceText: string)
    : (r: seq<StoredAnalysis>)
    ensures |r| == |log| + 1 && r[..|log|] == log
    ensures r[|log|] == StoredAnalysis(analysis, invoiceText)
  {
    log + [StoredAnalysis(analysis, invoiceText)]
  }

  /**
   * `search_similar_documents(query, n_results)`: up to the similarity index, a list of
   * document texts; `Failure` stands for an exception escaping the search.
   */
  type Search = (string, nat) -> Result<seq<string>, string>
}
