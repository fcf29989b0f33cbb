/** The greedy signature matcher of OP_CHECKMULTISIG. */
module Multisig {
  import opened Bytes

  type Elem = seq<byte>

  /** Everything the matching loop consults: one verdict per pair, and the encoding rules. */
  datatype Oracle<!E> = Oracle(
    matches: (Elem, Elem) -> bool,
    sigError: Elem -> Option<E>,
    keyError: Elem -> Option<E>,
    codeError: Elem -> Option<E>)

  /** Where the loop ended: the verdict and how many signatures found a key, or the rule that fired. */
  datatype Scan<E> = Matched(success: bool, used: nat) | Broken(error: E)

  function Errors<E>(o: Oracle<E>, sig: Elem, key: Elem): Option<E> {
    if o.sigError(sig).Some? then o.sigError(sig)
    else if o.keyError(key).Some? then o.keyError(key)
    else o.codeError(sig)
  }

  /** One signature after another takes the first key that fits, keys being tried once and in order. */
  function ScanFrom<E>(o: Oracle<E>, sigs: seq<Elem>, keys: seq<Elem>, i: nat, j: nat): Scan<E>
    requires i <= |sigs| && j <= |keys| && |sigs| - i <= |keys| - j
    decreases |keys| - j
  {
    if i == |sigs| then Matched(true, i)
    else if Errors(o, sigs[i], keys[j]).Some? then Broken(Errors(o, sigs[i], keys[j]).value)
    else
      var next := if o.matches(sigs[i], keys[j]) then i + 1 else i;
      if |sigs| - next > |keys| - (j + 1) then Matched(false, next)
      else ScanFrom(o, sigs, keys, next, j + 1)
  }

  /** The matching loop of `eval_checkmultisig`; the key index never runs past the list. */
  method MatchSignatures<E>(o: Oracle<E>, sigs: seq<Elem>, keys: seq<Elem>) returns (r: Scan<E>)
    requires |sigs| <= |keys|
    ensures r == ScanFrom(o, sigs, keys, 0, 0)
  {
    var sigIndex, keyIndex, remaining := 0, 0, |sigs|;
    while remaining > 0
      invariant remaining >= 0 && sigIndex + remaining == |sigs| && keyIndex <= |keys| && remaining <= |keys| - keyIndex
      invariant ScanFrom(o, sigs, keys, 0, 0) == ScanFrom(o, sigs, keys, sigIndex, keyIndex)
      decreases |keys| - keyIndex
    {
      var sig, key := sigs[sigIndex], keys[keyIndex];
      if o.sigError(sig).Some? { return Broken(o.sigError(sig).value); }
      if o.keyError(key).Some? { return Broken(o.keyError(key).value); }
      if o.codeError(sig).Some? { return Broken(o.codeError(sig).value); }
      var matched := o.matches(sig, key);
      if matched {
        sigIndex := sigIndex + 1;
        remaining := remaining - 1;
      }
      keyIndex := keyIndex + 1;
      if remaining > |keys| - keyIndex {
        return Matched(false, sigIndex);
      }
    }
    return Matched(true, sigIndex);
  }

  // ------------------------------------------------- what the loop decides

  /** An assignment of every signature to a key that fits it, in the same order. */
  ghost predicate Assignment<E>(o: Oracle<E>, sigs: seq<Elem>, keys: seq<Elem>, a: seq<nat>) {
    && |a| == |sigs|
    && (forall i :: 0 <= i < |a| ==> a[i] < |keys| && o.matches(sigs[i], keys[a[i]]))
    && (forall i, k :: 0 <= i < k < |a| ==> a[i] < a[k])
  }

  ghost predicate Assignable<E>(o: Oracle<E>, sigs: seq<Elem>, keys: seq<Elem>) {
    exists a: seq<nat> :: Assignment(o, sigs, keys, a)
  }

  ghost predicate NoErrors<E>(o: Oracle<E>, sigs: seq<Elem>, keys: seq<Elem>) {
    forall i, j :: 0 <= i < |sigs| && 0 <= j < |keys| ==> Errors(o, sigs[i], keys[j]).None?
  }

  function Greedy<E>(o: Oracle<E>, sigs: seq<Elem>, keys: seq<Elem>): bool {
    if sigs == [] then true
    else if |sigs| > |keys| then false
    else if o.matches(sigs[0], keys[0]) then Greedy(o, sigs[1..], keys[1..])
    else Greedy(o, sigs, keys[1..])
  }

  lemma {:induction false} ScanIsGreedy<E>(o: Oracle<E>, sigs: seq<Elem>, keys: seq<Elem>, i: nat, j: nat)
    requires i <= |sigs| && j <= |keys| && |sigs| - i <= |keys| - j && NoErrors(o, sigs, keys)
    ensures ScanFrom(o, sigs, keys, i, j).Matched?
    ensures ScanFrom(o, sigs, keys, i, j).success == Greedy(o, sigs[i..], keys[j..])
    decreases |keys| - j
  {
    hide Errors;
    if i < |sigs| {
      assert Errors(o, sigs[i], keys[j]).None?;
      var next := if o.matches(sigs[i], keys[j]) then i + 1 else i;
      assert keys[j..][1..] == keys[j + 1..];
      assert sigs[i..][1..] == sigs[i + 1..];
      if |sigs| - next <= |keys| - (j + 1) {
        ScanIsGreedy(o, sigs, keys, next, j + 1);
      }
    }
  }

  function Shift(a: seq<nat>, d: int): (b: seq<nat>)
    requires forall i :: 0 <= i < |a| ==> a[i] + d >= 0
    ensures |b| == |a| && forall i :: 0 <= i < |a| ==> b[i] == a[i] + d
  {
    if a == [] then [] else [a[0] + d] + Shift(a[1..], d)
  }

  lemma TakeFirst<E>(o: Oracle<E>, sigs: seq<Elem>, keys: seq<Elem>, a: seq<nat>)
    requires sigs != [] && keys != [] && o.matches(sigs[0], keys[0]) && Assignment(o, sigs[1..], keys[1..], a)
    ensures Assignment(o, sigs, keys, [0] + Shift(a, 1))
  {
    var b := [0] + Shift(a, 1);
    forall i | 0 <= i < |b|
      ensures b[i] < |keys| && o.matches(sigs[i], keys[b[i]])
    {
      if i > 0 { assert sigs[i] == sigs[1..][i - 1] && keys[b[i]] == keys[1..][a[i - 1]]; }
    }
  }

  lemma SkipFirst<E>(o: Oracle<E>, sigs: seq<Elem>, keys: seq<Elem>, a: seq<nat>)
    requires keys != [] && Assignment(o, sigs, keys[1..], a)
    ensures Assignment(o, sigs, keys, Shift(a, 1))
  {
    var b := Shift(a, 1);
    forall i | 0 <= i < |b|
      ensures b[i] < |keys| && o.matches(sigs[i], keys[b[i]])
    {
      assert keys[b[i]] == keys[1..][a[i]];
    }
  }

  lemma {:induction false} GreedyFinds<E>(o: Oracle<E>, sigs: seq<Elem>, keys: seq<Elem>)
    requires Greedy(o, sigs, keys)
    ensures Assignable(o, sigs, keys)
    decreases |keys|
  {
    if sigs == [] {
      assert Assignment(o, sigs, keys, []);
      return;
    }
    hide Assignment;
    if o.matches(sigs[0], keys[0]) {
      GreedyFinds(o, sigs[1..], keys[1..]);
      var a :| Assignment(o, sigs[1..], keys[1..], a);
      TakeFirst(o, sigs, keys, a);
    } else {
      GreedyFinds(o, sigs, keys[1..]);
      var a :| Assignment(o, sigs, keys[1..], a);
      SkipFirst(o, sigs, keys, a);
    }
  }

  lemma {:induction false} AssignmentBound(a: seq<nat>, n: nat)
    requires (forall i :: 0 <= i < |a| ==> a[i] < n) && (forall i, k :: 0 <= i < k < |a| ==> a[i] < a[k])
    ensures |a| <= n
  {
    if a != [] {
      var last := a[|a| - 1];
      AssignmentBound(a[..|a| - 1], last);
    }
  }

  /** The exchange argument: taking the first key that fits loses no assignment. */
  lemma {:induction false} GreedyMissesNothing<E>(o: Oracle<E>, sigs: seq<Elem>, keys: seq<Elem>, a: seq<nat>)
    requires Assignment(o, sigs, keys, a)
    ensures Greedy(o, sigs, keys)
    decreases |keys|
  {
    AssignmentBound(a, |keys|);
    if sigs != [] {
      if o.matches(sigs[0], keys[0]) {
        assert forall i :: 1 <= i < |a| ==> a[0] < a[i];
        var b := Shift(a[1..], -1);
        assert Assignment(o, sigs[1..], keys[1..], b);
        GreedyMissesNothing(o, sigs[1..], keys[1..], b);
      } else {
        assert forall i :: 0 <= i < |a| ==> a[i] >= a[0] > 0;
        var b := Shift(a, -1);
        assert Assignment(o, sigs, keys[1..], b);
        GreedyMissesNothing(o, sigs, keys[1..], b);
      }
    }
  }

  lemma GreedyIff<E>(o: Oracle<E>, sigs: seq<Elem>, keys: seq<Elem>)
    ensures Greedy(o, sigs, keys) <==> Assignable(o, sigs, keys)
  {
    if Greedy(o, sigs, keys) { GreedyFinds(o, sigs, keys); }
    if Assignable(o, sigs, keys) {
      var a :| Assignment(o, sigs, keys, a);
      GreedyMissesNothing(o, sigs, keys, a);
    }
  }

  /** With no encoding rule firing, the loop succeeds exactly when an order-preserving assignment exists. */
  lemma ScanDecides<E>(o: Oracle<E>, sigs: seq<Elem>, keys: seq<Elem>)
    requires |sigs| <= |keys| && NoErrors(o, sigs, keys)
    ensures ScanFrom(o, sigs, keys, 0, 0).Matched?
    ensures ScanFrom(o, sigs, keys, 0, 0).success <==> Assignable(o, sigs, keys)
  {
    ScanIsGreedy(o, sigs, keys, 0, 0);
    assert sigs[0..] == sigs && keys[0..] == keys;
    GreedyIff(o, sigs, keys);
  }

  /** Each pair is asked for the encoding of the signature, then of the key, then for the script code. */
  lemma FirstError<E>(o: Oracle<E>, sigs: seq<Elem>, keys: seq<Elem>)
    requires sigs != [] && |sigs| <= |keys|
    ensures var r := ScanFrom(o, sigs, keys, 0, 0);
      && (o.sigError(sigs[0]).Some? ==> r == Broken(o.sigError(sigs[0]).value))
      && (o.sigError(sigs[0]).None? && o.keyError(keys[0]).Some? ==> r == Broken(o.keyError(keys[0]).value))
      && (o.sigError(sigs[0]).None? && o.keyError(keys[0]).None? && o.codeError(sigs[0]).Some? ==>
        r == Broken(o.codeError(sigs[0]).value))
  {
  }

  /** A scan succeeds exactly when every signature found its key; failing, it leaves at least one. */
  lemma {:induction false} UsedDecides<E>(o: Oracle<E>, sigs: seq<Elem>, keys: seq<Elem>, i: nat, j: nat)
    requires i <= |sigs| && j <= |keys| && |sigs| - i <= |keys| - j
    ensures var r := ScanFrom(o, sigs, keys, i, j);
      r.Matched? ==> r.used <= |sigs| && (r.success <==> r.used == |sigs|)
    decreases |keys| - j
  {
    if i < |sigs| && Errors(o, sigs[i], keys[j]).None? {
      var next := if o.matches(sigs[i], keys[j]) then i + 1 else i;
      if |sigs| - next <= |keys| - (j + 1) { UsedDecides(o, sigs, keys, next, j + 1); }
    }
  }

  function Reversed<T>(s: seq<T>): (r: seq<T>)
    ensures |r| == |s| && forall i :: 0 <= i < |s| ==> r[i] == s[|s| - 1 - i]
  {
    if s == [] then [] else Reversed(s[1..]) + [s[0]]
  }

  /** The mirror image of an index list over `n` positions. */
  function Mirrored(a: seq<nat>, n: nat): (b: seq<nat>)
    requires forall i :: 0 <= i < |a| ==> a[i] < n
    ensures |b| == |a| && forall i :: 0 <= i < |a| ==> b[i] == n - 1 - a[|a| - 1 - i]
  {
    if a == [] then [] else Mirrored(a[1..], n) + [n - 1 - a[0]]
  }

  lemma MirroredMatch<E>(o: Oracle<E>, sigs: seq<Elem>, keys: seq<Elem>, a: seq<nat>, i: nat)
    requires Assignment(o, sigs, keys, a) && i < |a|
    ensures var b := Mirrored(a, |keys|); b[i] < |keys| && o.matches(Reversed(sigs)[i], Reversed(keys)[b[i]])
  {
    hide Reversed, Mirrored;
    var k := |a| - 1 - i;
    assert a[k] < |keys| && o.matches(sigs[k], keys[a[k]]);
    hide Assignment;
    var b := Mirrored(a, |keys|);
    assert b[i] == |keys| - 1 - a[k];
    assert Reversed(sigs)[i] == sigs[k];
    assert Reversed(keys)[b[i]] == keys[a[k]];
  }

  lemma MirroredOrder(a: seq<nat>, n: nat, i: nat, k: nat)
    requires (forall j :: 0 <= j < |a| ==> a[j] < n) && (forall x, y :: 0 <= x < y < |a| ==> a[x] < a[y]) && i < k < |a|
    ensures Mirrored(a, n)[i] < Mirrored(a, n)[k]
  {
    hide Mirrored;
  }

  lemma ReverseAssignment<E>(o: Oracle<E>, sigs: seq<Elem>, keys: seq<Elem>)
    requires Assignable(o, sigs, keys)
    ensures Assignable(o, Reversed(sigs), Reversed(keys))
  {
    hide Reversed, Mirrored;
    var a :| Assignment(o, sigs, keys, a);
    var b := Mirrored(a, |keys|);
    forall i | 0 <= i < |b| ensures b[i] < |keys| && o.matches(Reversed(sigs)[i], Reversed(keys)[b[i]]) {
      MirroredMatch(o, sigs, keys, a, i);
    }
    forall i, k | 0 <= i < k < |b| ensures b[i] < b[k] { MirroredOrder(a, |keys|, i, k); }
    assert Assignment(o, Reversed(sigs), Reversed(keys), b);
  }

  lemma ReversedTwice<T>(s: seq<T>)
    ensures Reversed(Reversed(s)) == s
  {
    hide Reversed;
  }

  /** So the verdict does not depend on the scan direction. */
  lemma DirectionIrrelevant<E>(o: Oracle<E>, sigs: seq<Elem>, keys: seq<Elem>)
    ensures Greedy(o, sigs, keys) == Greedy(o, Reversed(sigs), Reversed(keys))
  {
    hide Greedy, Assignable, Reversed;
    GreedyIff(o, sigs, keys);
    GreedyIff(o, Reversed(sigs), Reversed(keys));
    if Assignable(o, sigs, keys) { ReverseAssignment(o, sigs, keys); }
    if Assignable(o, Reversed(sigs), Reversed(keys)) {
      ReverseAssignment(o, Reversed(sigs), Reversed(keys));
      ReversedTwice(sigs);
      ReversedTwice(keys);
    }
  }
}
