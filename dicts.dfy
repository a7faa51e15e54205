/** Python dicts filled in a loop by keying each element of a sequence: the
    "keep the first" form (`if k and k not in d: d[k] = v`) and the
    "overwrite" form (`d[k] = v`), with what each holds afterwards. */
module Dicts {
  import opened Common

  /** An ordered dict: its keys in insertion order and its contents. */
  datatype OrderedDict<V> = OrderedDict(keys: seq<string>, values: map<string, V>)

  /** `x` has the key `k`, a non-empty string. */
  predicate Keyed<T>(key: T -> Option<string>, x: T, k: string) {
    k != "" && key(x) == Some(k)
  }

  /** `if k and k not in d: d[k] = val(x)` for each `x` in turn. */
  function FirstWins<T, V>(xs: seq<T>, key: T -> Option<string>, val: T -> V): OrderedDict<V>
  {
    if xs == [] then OrderedDict([], map[]) else
      var r := FirstWins(xs[..|xs| - 1], key, val);
      var x := xs[|xs| - 1];
      if Truthy(key(x)) && key(x).value !in r.values then
        OrderedDict(r.keys + [key(x).value], r.values[key(x).value := val(x)])
      else r
  }

  /** The keys are exactly those some element has. */
  lemma {:induction false} FirstWinsKeys<T, V>(xs: seq<T>, key: T -> Option<string>, val: T -> V)
    ensures forall k :: k in FirstWins(xs, key, val).values <==> exists i :: 0 <= i < |xs| && Keyed(key, xs[i], k)
  {
    if xs != [] {
      var n := |xs| - 1;
      var init := xs[..n];
      FirstWinsKeys(init, key, val);
      forall k ensures k in FirstWins(xs, key, val).values <==> exists i :: 0 <= i < |xs| && Keyed(key, xs[i], k) {
        if k in FirstWins(init, key, val).values {
          var i :| 0 <= i < |init| && Keyed(key, init[i], k);
          assert xs[i] == init[i];
        }
        if exists i :: 0 <= i < |xs| && Keyed(key, xs[i], k) {
          var i :| 0 <= i < |xs| && Keyed(key, xs[i], k);
          if i < n {
            assert init[i] == xs[i];
          }
        }
      }
    }
  }

  predicate Distinct(s: seq<string>) {
    forall i, j :: 0 <= i < j < |s| ==> s[i] != s[j]
  }

  /** The key list lists the dict's keys, each once. */
  lemma {:induction false} FirstWinsKeyList<T, V>(xs: seq<T>, key: T -> Option<string>, val: T -> V)
    ensures forall k :: k in FirstWins(xs, key, val).values <==> k in FirstWins(xs, key, val).keys
    ensures Distinct(FirstWins(xs, key, val).keys)
  {
    if xs != [] {
      FirstWinsKeyList(xs[..|xs| - 1], key, val);
    }
  }

  /** Each key holds the value of the FIRST element having it. */
  lemma {:induction false} FirstWinsFirst<T, V>(xs: seq<T>, key: T -> Option<string>, val: T -> V)
    ensures forall k :: k in FirstWins(xs, key, val).values ==>
      exists i :: (0 <= i < |xs| && Keyed(key, xs[i], k) && FirstWins(xs, key, val).values[k] == val(xs[i])
        && forall j :: 0 <= j < i ==> !Keyed(key, xs[j], k))
  {
    if xs != [] {
      var n := |xs| - 1;
      var init := xs[..n];
      FirstWinsFirst(init, key, val);
      FirstWinsKeys(init, key, val);
      var r := FirstWins(init, key, val);
      forall k | k in FirstWins(xs, key, val).values
        ensures exists i :: (0 <= i < |xs| && Keyed(key, xs[i], k) && FirstWins(xs, key, val).values[k] == val(xs[i])
          && forall j :: 0 <= j < i ==> !Keyed(key, xs[j], k))
      {
        if k in r.values {
          var i :| 0 <= i < |init| && Keyed(key, init[i], k) && r.values[k] == val(init[i])
            && forall j :: 0 <= j < i ==> !Keyed(key, init[j], k);
          assert xs[i] == init[i];
          forall j | 0 <= j < i ensures !Keyed(key, xs[j], k) {
            assert xs[j] == init[j];
          }
        } else {
          forall j | 0 <= j < n ensures !Keyed(key, xs[j], k) {
            assert xs[j] == init[j];
          }
          assert Keyed(key, xs[n], k);
        }
      }
    }
  }

  /** `d[k] = val(x)` for each `x` that has a key, in turn. */
  function LastWins<T, V>(xs: seq<T>, key: T -> Option<string>, val: T -> V): map<string, V>
  {
    if xs == [] then map[] else
      var m := LastWins(xs[..|xs| - 1], key, val);
      var x := xs[|xs| - 1];
      match key(x)
      case Some(k) => m[k := val(x)]
      case None => m
  }

  /** The keys are exactly those some element has. */
  lemma {:induction false} LastWinsKeys<T, V>(xs: seq<T>, key: T -> Option<string>, val: T -> V)
    ensures forall k :: k in LastWins(xs, key, val) <==> exists i :: 0 <= i < |xs| && key(xs[i]) == Some(k)
  {
    if xs != [] {
      var n := |xs| - 1;
      var init := xs[..n];
      LastWinsKeys(init, key, val);
      forall k ensures k in LastWins(xs, key, val) <==> exists i :: 0 <= i < |xs| && key(xs[i]) == Some(k) {
        if k in LastWins(init, key, val) {
          var i :| 0 <= i < |init| && key(init[i]) == Some(k);
          assert xs[i] == init[i];
        }
        if exists i :: 0 <= i < |xs| && key(xs[i]) == Some(k) {
          var i :| 0 <= i < |xs| && key(xs[i]) == Some(k);
          if i < n {
            assert init[i] == xs[i];
          }
        }
      }
    }
  }

  /** Each key holds the value of the LAST element having it. */
  lemma {:induction false} LastWinsLast<T, V>(xs: seq<T>, key: T -> Option<string>, val: T -> V)
    ensures forall k :: k in LastWins(xs, key, val) ==>
      exists i :: (0 <= i < |xs| && key(xs[i]) == Some(k) && LastWins(xs, key, val)[k] == val(xs[i])
        && forall j :: i < j < |xs| ==> key(xs[j]) != Some(k))
  {
    if xs != [] {
      var n := |xs| - 1;
      var init := xs[..n];
      LastWinsLast(init, key, val);
      forall k | k in LastWins(xs, key, val)
        ensures exists i :: (0 <= i < |xs| && key(xs[i]) == Some(k) && LastWins(xs, key, val)[k] == val(xs[i])
          && forall j :: i < j < |xs| ==> key(xs[j]) != Some(k))
      {
        if key(xs[n]) != Some(k) {
          var i :| 0 <= i < |init| && key(init[i]) == Some(k) && LastWins(init, key, val)[k] == val(init[i])
            && forall j :: i < j < |init| ==> key(init[j]) != Some(k);
          assert xs[i] == init[i];
          forall j | i < j < |xs| ensures key(xs[j]) != Some(k) {
            if j < n { assert xs[j] == init[j]; }
          }
        }
      }
    }
  }
}
