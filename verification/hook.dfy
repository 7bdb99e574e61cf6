/**
 * The decoder `object_hook` written in both drafts (`CustomJSONDecoder.from_dict`
 * and `Deserializer.from_dict`, the same code).  It walks a dict, and the lists
 * held directly in it, writing every nested dict back after processing it
 * recursively.  Neither draft hands it to the JSON parser, and its net effect
 * is nothing: the dict comes back unchanged.
 */
module Hook {
  import opened Values

  /** Processes `dictionary` as the hook does; the dicts and lists are values here,
      so each rewritten list is stored back into its entry. */
  method FromDict(dictionary: seq<Entry>) returns (result: seq<Entry>)
    ensures result == dictionary
    decreases dictionary
  {
    result := dictionary;
    var i := 0;
    while i < |result|
      invariant 0 <= i <= |result|
      invariant result == dictionary
    {
      var key, value := result[i].key, result[i].val;
      if value.VDict? {
        var nested := FromDict(value.entries);
        result := result[i := Entry(key, VDict(nested))];
      } else if value.VList? {
        var items := value.items;
        var k := 0;
        while k < |items|
          invariant 0 <= k <= |items|
          invariant items == value.items
        {
          if items[k].VDict? {
            var nested := FromDict(items[k].entries);
            items := items[k := VDict(nested)];
          }
          k := k + 1;
        }
        result := result[i := Entry(key, VList(items))];
      }
      i := i + 1;
    }
  }
}
