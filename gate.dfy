/** The API-key gate in front of every endpoint. */
module Gate {

  /** The decision of validate_key, for an id already parsed from the query
      (text that is not a number yields id 0; a number too large for an int64
      yields the nearest int64 bound, which does not index the table) and the
      `api_key` parameter (empty when it is missing): the id when the stored key
      for that house equals the supplied key exactly, and -1 otherwise. The id
      must index the table. */
  function ValidateKey(apiKey: seq<string>, houseId: int, supplied: string): (r: int)
    requires 0 <= houseId < |apiKey|
    ensures r == houseId || r == -1
    ensures r >= 0 <==> apiKey[houseId] == supplied
  {
    if apiKey[houseId] != supplied then -1 else houseId
  }

  /** A house whose key was never configured is stored as the empty key, and
      then a request with an empty or missing key passes the gate. */
  lemma EmptyKeyPasses(apiKey: seq<string>, houseId: int)
    requires 0 <= houseId < |apiKey| && apiKey[houseId] == ""
    ensures ValidateKey(apiKey, houseId, "") == houseId
  {
  }
}
