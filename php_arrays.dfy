/**
 * PHP's ordered array with string keys, as the cookie and header maps of the
 * request bridge use it: a list of (key, value) entries in insertion order.
 */
module PhpArrays {
  import opened Wrappers

  type PhpArray = seq<(string, string)>

  /** No key occurs twice, as in every PHP array. */
  predicate Keyed(a: PhpArray)
  {
    forall i, j :: 0 <= i < j < |a| ==> a[i].0 != a[j].0
  }

  /** `array_key_exists(k, a)`. */
  predicate HasKey(a: PhpArray, k: string)
  {
    exists i :: 0 <= i < |a| && a[i].0 == k
  }

  /** `a[k]`, or None when the key is absent. */
  function Get(a: PhpArray, k: string): (r: Option<string>)
    ensures r.Some? <==> HasKey(a, k)
    ensures r.Some? ==> exists i :: 0 <= i < |a| && a[i] == (k, r.value)
    decreases |a|
  {
    if a == [] then None
    else if a[0].0 == k then Some(a[0].1)
    else
      assert forall i :: 1 <= i < |a| ==> a[i] == a[1..][i - 1];
      Get(a[1..], k)
  }

  /**
   * `a[k] = v`: an existing key keeps its position and takes the new value;
   * a new key is appended at the end. Every other key keeps its value.
   */
  function Assign(a: PhpArray, k: string, v: string): (r: PhpArray)
    ensures !HasKey(a, k) ==> r == a + [(k, v)]
    ensures HasKey(a, k) ==> |r| == |a| && forall i :: 0 <= i < |a| ==> r[i].0 == a[i].0
    decreases |a|
  {
    if a == [] then [(k, v)]
    else if a[0].0 == k then [(k, v)] + a[1..]
    else
      var rest := Assign(a[1..], k, v);
      assert HasKey(a, k) <==> HasKey(a[1..], k) by {
        if HasKey(a, k) {
          var i :| 0 <= i < |a| && a[i].0 == k;
          assert a[1..][i - 1].0 == k;
        }
      }
      [a[0]] + rest
  }

  /** After `a[k] = v`, reading k gives v and reading any other key gives what it gave before. */
  lemma {:induction false} AssignGet(a: PhpArray, k: string, v: string)
    ensures forall key :: Get(Assign(a, k, v), key) == if key == k then Some(v) else Get(a, key)
    decreases |a|
  {
    if a != [] && a[0].0 != k {
      AssignGet(a[1..], k, v);
      assert Assign(a, k, v)[1..] == Assign(a[1..], k, v);
    }
  }

  /** In an array without repeated keys, the entry holding a key gives its value. */
  lemma GetKeyed(a: PhpArray, i: nat)
    requires Keyed(a) && i < |a|
    ensures Get(a, a[i].0) == Some(a[i].1)
  {
  }

  /** Assignment never creates a repeated key. */
  lemma AssignKeyed(a: PhpArray, k: string, v: string)
    requires Keyed(a)
    ensures Keyed(Assign(a, k, v))
  {
  }
}
