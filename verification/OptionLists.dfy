/** Lists of functional options, read without applying them: of several options of one setting, the
    last counts. */
module OptionLists {
  import opened Wrappers

  /** The last option of a setting. */
  function Last<T, K(==)>(opts: seq<T>, settingOf: T -> K, k: K): (r: Option<T>)
    ensures r.Some? ==> settingOf(r.value) == k
  {
    if opts == [] then None
    else if settingOf(opts[|opts| - 1]) == k then Some(opts[|opts| - 1])
    else Last(opts[..|opts| - 1], settingOf, k)
  }

  predicate Gives<T, K(==)>(opts: seq<T>, settingOf: T -> K, k: K) {
    exists i :: 0 <= i < |opts| && settingOf(opts[i]) == k
  }

  lemma {:induction false} LastIsLast<T, K>(opts: seq<T>, settingOf: T -> K, k: K, i: nat)
    requires i < |opts| && settingOf(opts[i]) == k && forall j :: i < j < |opts| ==> settingOf(opts[j]) != k
    ensures Last(opts, settingOf, k) == Some(opts[i])
  {
    if i < |opts| - 1 {
      LastIsLast(opts[..|opts| - 1], settingOf, k, i);
    }
  }

  lemma {:induction false} LastIfAny<T, K>(opts: seq<T>, settingOf: T -> K, k: K)
    ensures Last(opts, settingOf, k).Some? <==> Gives(opts, settingOf, k)
  {
    if opts != [] {
      var init, last := opts[..|opts| - 1], opts[|opts| - 1];
      LastIfAny(init, settingOf, k);
      assert forall i :: 0 <= i < |init| ==> opts[i] == init[i];
      assert Gives(opts, settingOf, k) <==> Gives(init, settingOf, k) || settingOf(last) == k;
    }
  }
}
