/**
 * A parsed request body: PHP's ordered array of field name to value. Keys of
 * a PHP array are distinct; only string values are modelled.
 */
module RequestBody {
  import opened Wrappers

  type Body = seq<(string, string)>

  predicate DistinctKeys(body: Body) {
    forall i, j :: 0 <= i < j < |body| ==> body[i].0 != body[j].0
  }

  /** `$data[$key]`, or None when the key is absent (`isset` is `Lookup(…).Some?`). */
  function Lookup(body: Body, key: string): (v: Option<string>)
    ensures v.Some? <==> exists i :: 0 <= i < |body| && body[i].0 == key
    ensures v.Some? ==> exists i :: 0 <= i < |body| && body[i] == (key, v.value)
  {
    if body == [] then None
    else if body[0].0 == key then Some(body[0].1)
    else
      var v := Lookup(body[1..], key);
      assert forall i :: 0 <= i < |body[1..]| ==> body[1..][i] == body[i + 1];
      v
  }

  /** The first field's key does not occur again in the rest of the body. */
  lemma HeadKeyAbsentFromTail(body: Body)
    requires DistinctKeys(body) && body != []
    ensures Lookup(body[1..], body[0].0) == None
  {
  }
}
