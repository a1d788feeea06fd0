/**
 * Fetching one stored report by its hash: the hash must be 32 hexadecimal
 * digits of either case; a well-formed hash is handed to the report store,
 * whose answer (a report, or none) is returned unchanged.
 */
module FetchReportUseCase {
  import opened Wrappers
  import opened Strings
  import opened Entities

  const InvalidHashFormat: string := "INVALID_HASH_FORMAT"
  const HashLength: nat := 32

  /** One character of `[0-9a-f]` under the `i` flag. */
  predicate IsHexDigit(c: char)
  {
    '0' <= c <= '9' || 'a' <= c <= 'f' || 'A' <= c <= 'F'
  }

  /** `/^[0-9a-f]{32}$/i`: exactly 32 hexadecimal digits, nothing else. */
  predicate IsHexHash(hash: string)
  {
    |hash| == HashLength && forall i :: 0 <= i < |hash| ==> IsHexDigit(hash[i])
  }

  /**
   * `execute`: a malformed hash (the empty one included) is refused with
   * `INVALID_HASH_FORMAT` before the store is consulted; otherwise the store's
   * lookup of exactly that hash is the answer.
   */
  function Execute(hash: string, findByHash: string -> Option<Report>): (r: Result<Option<Report>, string>)
    ensures r.Err? <==> !IsHexHash(hash)
    ensures r.Err? ==> r.error == InvalidHashFormat
    ensures r.Ok? ==> r.value == findByHash(hash)
  {
    if hash == "" || !IsHexHash(hash) then Err(InvalidHashFormat)
    else Ok(findByHash(hash))
  }

  // ---------------------------------------------------------------- properties

  /** The empty hash never reaches the store. */
  lemma EmptyHashRefused(findByHash: string -> Option<Report>)
    ensures Execute("", findByHash) == Err(InvalidHashFormat)
  {
  }

  /** Case does not matter: a hash is accepted exactly when its lower-case spelling is. */
  lemma {:induction false} CaseInsensitive(hash: string)
    ensures IsHexHash(hash) <==> IsHexHash(ToLower(hash))
  {
    var lower := ToLower(hash);
    assert |lower| == |hash|;
    forall i | 0 <= i < |hash|
      ensures IsHexDigit(hash[i]) <==> IsHexDigit(lower[i])
    {
      assert lower[i] == LowerChar(hash[i]);
    }
  }

  /** A well-formed hash is looked up in any spelling the caller gives; the store sees it as given. */
  lemma LookupAsGiven(hash: string, findByHash: string -> Option<Report>)
    requires IsHexHash(hash)
    ensures Execute(hash, findByHash) == Ok(findByHash(hash))
    ensures Execute(ToLower(hash), findByHash) == Ok(findByHash(ToLower(hash)))
  {
    CaseInsensitive(hash);
  }

  /** One digit more or one fewer and the hash is refused, whatever its characters. */
  lemma LengthIsExact(hash: string, findByHash: string -> Option<Report>)
    requires |hash| != HashLength
    ensures Execute(hash, findByHash) == Err(InvalidHashFormat)
  {
  }
}
