/**
 * The lifecycle state of a logged HTTP request
 * (data/local/entity/HttpRequestState.kt): four constants, each with a
 * name, and a total parser that falls back to Unknown.
 */
module RequestState {

  datatype HttpRequestState = Running | Completed | Failed | Unknown {

    /** The `name` each constant is declared with. */
    function Name(): string {
      match this
      case Running => "Running"
      case Completed => "Completed"
      case Failed => "Failed"
      case Unknown => "Unknown"
    }
  }

  /** The four declared names. */
  const Names: set<string> := {"Running", "Completed", "Failed", "Unknown"}

  /**
   * `HttpRequestState.fromString`: the constant whose name is `s`;
   * every other string is read as Unknown.
   */
  function FromString(s: string): (r: HttpRequestState)
    ensures s in Names ==> r.Name() == s
    ensures s !in Names ==> r == Unknown
  {
    if s == "Running" then Running
    else if s == "Completed" then Completed
    else if s == "Failed" then Failed
    else Unknown
  }

  /** Every state's name is one of the four declared names. */
  lemma NameIsDeclared(st: HttpRequestState)
    ensures st.Name() in Names
  {
  }

  /** Parsing a state's name gives the state back. */
  lemma FromStringOfName(st: HttpRequestState)
    ensures FromString(st.Name()) == st
  {
  }

  /** The four names are pairwise distinct: Name is injective. */
  lemma NamesDistinct(a: HttpRequestState, b: HttpRequestState)
    ensures a.Name() == b.Name() <==> a == b
  {
  }

  /** Any string that is not one of the four names parses to Unknown. */
  lemma FromStringFallback(s: string)
    requires s !in Names
    ensures FromString(s) == Unknown
  {
  }

  /** Parsing is stable through Name: re-parsing the name of a parsed state gives that state. */
  lemma FromStringStable(s: string)
    ensures FromString(FromString(s).Name()) == FromString(s)
  {
    FromStringOfName(FromString(s));
  }
}
