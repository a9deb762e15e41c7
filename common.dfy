/** Small shared datatypes: optional values and the outcome of one HTTP request. */
module Common {

  /** A value that may be absent (Python's `None`). */
  datatype Option<+T> = None | Some(value: T) {
    function GetOr(default: T): T {
      match this
      case Some(v) => v
      case None => default
    }
  }

  /** `m.get(k)` on a Python dictionary. */
  function Get<K, V>(m: map<K, V>, k: K): (r: Option<V>)
    ensures r.Some? <==> k in m
    ensures r.Some? ==> r.value == m[k]
  {
    if k in m then Some(m[k]) else None
  }

  /** A sequence is the part before index `j`, the element at `j`, and the rest. */
  lemma SplitAround<T>(s: seq<T>, j: nat)
    requires j < |s|
    ensures s == s[..j] + ([s[j]] + s[j + 1..])
  {
    assert s[j..] == [s[j]] + s[j + 1..];
    assert s == s[..j] + s[j..];
  }

  /** The first `j + 1` elements are the first `j` followed by element `j`. */
  lemma TakeOneMore<T>(s: seq<T>, j: nat)
    requires j < |s|
    ensures s[..j + 1] == s[..j] + [s[j]]
  {
  }

  /**
   * The outcome of one outbound request: the response text, or the text of
   * the `requests.RequestException` raised by the call or by
   * `raise_for_status()` (timeouts, connection errors, non-2xx answers).
   */
  datatype Fetch = Ok(body: string) | Err(message: string)
}
