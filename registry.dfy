/**
 * The challenge table: `Result` records of config.go and the lookup
 * `findResult` of main.go.
 */
module Registry {
  import opened Wrappers

  /** One challenge of the configuration (config.go:11-14). */
  datatype Result = Result(name: string, output: string)

  /** The zero value `Result{}` that Go returns when nothing matches. */
  const NoResult := Result("", "")

  predicate HasName(results: seq<Result>, name: string) {
    exists i :: 0 <= i < |results| && results[i].name == name
  }

  /** Entry `i` is named `name` and no entry before it is. */
  predicate FirstMatchAt(results: seq<Result>, name: string, i: int) {
    0 <= i < |results| && results[i].name == name && forall j :: 0 <= j < i ==> results[j].name != name
  }

  /**
   * The first entry named `name`, if any: the entry found sits at an
   * index before which no entry has that name.
   */
  function Lookup(results: seq<Result>, name: string): (r: Option<Result>)
    ensures r.Some? <==> HasName(results, name)
    ensures r.Some? ==> exists i :: FirstMatchAt(results, name, i) && results[i] == r.value
  {
    if results == [] then None
    else if results[0].name == name then Some(results[0])
    else
      var r := Lookup(results[1..], name);
      assert HasName(results, name) ==> HasName(results[1..], name) by {
        if HasName(results, name) {
          var i :| 0 <= i < |results| && results[i].name == name;
          assert results[1..][i - 1].name == name;
        }
      }
      if r.Some? then
        var i :| FirstMatchAt(results[1..], name, i) && results[1..][i] == r.value;
        assert forall j :: 1 <= j < i + 1 ==> results[j] == results[1..][j - 1];
        assert results[i + 1] == r.value;
        r
      else r
  }

  /**
   * findResult (main.go:119-126): a linear scan that returns the first
   * entry whose name is exactly `name`, or the zero Result and false.
   */
  method FindResult(results: seq<Result>, name: string) returns (result: Result, ok: bool)
    ensures ok <==> HasName(results, name)
    ensures ok ==> Lookup(results, name) == Some(result)
    ensures !ok ==> result == NoResult
  {
    var i := 0;
    while i < |results|
      invariant 0 <= i <= |results|
      invariant forall j :: 0 <= j < i ==> results[j].name != name
    {
      if results[i].name == name {
        return results[i], true;
      }
      i := i + 1;
    }
    return NoResult, false;
  }

  /** A name is found exactly at its first occurrence. */
  lemma LookupFirst(results: seq<Result>, name: string, i: nat)
    requires FirstMatchAt(results, name, i)
    ensures Lookup(results, name) == Some(results[i])
  {
  }

  /** Entries after the first match never matter, and a later duplicate name is shadowed. */
  lemma LookupShadows(results: seq<Result>, extra: seq<Result>, name: string)
    requires HasName(results, name)
    ensures Lookup(results + extra, name) == Lookup(results, name)
  {
    var found := Lookup(results, name);
    assert found.Some?;
    var i :| FirstMatchAt(results, name, i) && results[i] == found.value;
    assert (results + extra)[i] == results[i];
    LookupFirst(results + extra, name, i);
  }
}
