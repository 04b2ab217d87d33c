/**
 * The Room type converter that stores a state as its name
 * (data/local/database/converter/HttpRequestStateConverter.kt).
 */
module StateConverter {
  import opened RequestState

  /** `fromHttpRequestState`: the column text of a state. */
  function FromHttpRequestState(state: HttpRequestState): (r: string)
    ensures r in Names
    ensures FromString(r) == state
  {
    FromStringOfName(state);
    state.Name()
  }

  /** `toHttpRequestState`: the state read back from a column; defined for every string. */
  function ToHttpRequestState(s: string): (r: HttpRequestState)
    ensures s in Names ==> FromHttpRequestState(r) == s
    ensures s !in Names ==> r == Unknown
  {
    FromString(s)
  }

  /** Writing a state and reading it back is the identity. */
  lemma StateRoundTrip(st: HttpRequestState)
    ensures ToHttpRequestState(FromHttpRequestState(st)) == st
  {
  }

  /**
   * Reading a column and writing it back restores the text exactly when
   * it is one of the four names; anything else comes back as "Unknown".
   */
  lemma TextRoundTrip(s: string)
    ensures FromHttpRequestState(ToHttpRequestState(s)) == if s in Names then s else "Unknown"
  {
  }
}
