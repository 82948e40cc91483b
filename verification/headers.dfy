/** `http.Header`: a map from header name to its ordered list of values. */
module Headers {
  import opened GoTypes

  type Header = map<string, seq<string>>

  /** The values stored under `k`, or none; indexing a Go map with a missing
      key yields the nil slice. */
  function Values(h: Header, k: string): seq<string>
  {
    if k in h then h[k] else []
  }

  /** Go's `h[k] != nil`: the header came back with a value list. A missing key
      and an empty list both read as the nil slice here. */
  predicate Present(h: Header, k: string)
  {
    Values(h, k) != []
  }

  /** `h.Add(k, v)`: appends `v` to the values of `k`, leaving every other
      header as it was. */
  function Add(h: Header, k: string, v: string): (r: Header)
    ensures r.Keys == h.Keys + {k}
    ensures r[k] == Values(h, k) + [v]
    ensures forall other | other in h && other != k :: r[other] == h[other]
  {
    h[k := Values(h, k) + [v]]
  }

  /** The first of `keys`, in order, that `h` does not hold; `None` when it
      holds them all. A reporter checks its required headers this way and
      names the first missing one in its error. */
  function FirstMissing(h: Header, keys: seq<string>): (r: Option<string>)
    ensures r.None? <==> forall i | 0 <= i < |keys| :: Present(h, keys[i])
    ensures r.Some? ==> exists i | 0 <= i < |keys| ::
              keys[i] == r.value && !Present(h, keys[i]) && forall j | 0 <= j < i :: Present(h, keys[j])
  {
    if keys == [] then None
    else if !Present(h, keys[0]) then Some(keys[0])
    else
      var r := FirstMissing(h, keys[1..]);
      assert r.Some? ==> exists i | 1 <= i < |keys| ::
        keys[i] == r.value && !Present(h, keys[i]) && forall j | 0 <= j < i :: Present(h, keys[j]) by {
        if r.Some? {
          var i :| 0 <= i < |keys[1..]| && keys[1..][i] == r.value && !Present(h, keys[1..][i])
                   && forall j | 0 <= j < i :: Present(h, keys[1..][j]);
          assert keys[i + 1] == r.value;
          forall j | 0 <= j < i + 1 ensures Present(h, keys[j]) {
            if j > 0 { assert keys[j] == keys[1..][j - 1]; }
          }
        }
      }
      r
  }

  /** `keys[i]` is the first missing key exactly when it is missing and every
      key before it is present. */
  lemma {:induction false} FirstMissingAt(h: Header, keys: seq<string>, i: nat)
    requires i < |keys| && !Present(h, keys[i])
    requires forall j | 0 <= j < i :: Present(h, keys[j])
    ensures FirstMissing(h, keys) == Some(keys[i])
  {
    if i > 0 {
      assert Present(h, keys[0]);
      forall j | 0 <= j < i - 1 ensures Present(h, keys[1..][j]) {
        assert keys[1..][j] == keys[j + 1];
      }
      FirstMissingAt(h, keys[1..], i - 1);
    }
  }
}
