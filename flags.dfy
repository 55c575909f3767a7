/** The "no limit configured" sentinel of the command-line flags.
    The three limit flags `max`, `private-max` and `public-max` default to
    the largest 32-bit signed integer, and a limit still equal to that value
    is read as "not set". */
module Flags {

  /** `math.MaxInt32`, the default value of every limit flag. */
  const MaxInt32: int := 0x7FFF_FFFF

  /** Defaults of the flags `max`, `private-max` and `public-max`. */
  const DefaultMax: int := MaxInt32
  const DefaultPrivateMax: int := MaxInt32
  const DefaultPublicMax: int := MaxInt32

  /** Every given flag value is still the sentinel. */
  predicate AllUnset(flags: seq<int>) {
    forall i :: 0 <= i < |flags| ==> flags[i] == MaxInt32
  }

  /** `noLimitIsSet(flags...)`: scans the values in order and answers false
      at the first one that differs from the sentinel, true otherwise. */
  method NoLimitIsSet(flags: seq<int>) returns (r: bool)
    ensures r <==> AllUnset(flags)
    ensures !r <==> exists i :: 0 <= i < |flags| && flags[i] != MaxInt32
  {
    for i := 0 to |flags|
      invariant forall j :: 0 <= j < i ==> flags[j] == MaxInt32
    {
      if flags[i] != MaxInt32 {
        return false;
      }
    }
    return true;
  }

  /** With no arguments there is nothing that is set. */
  lemma NoArgumentsMeansNoLimit()
    ensures AllUnset([])
  {
  }

  /** The answer over the concatenation of two argument lists is the
      conjunction of the answers over each of them. */
  lemma {:induction false} AllUnsetAppend(a: seq<int>, b: seq<int>)
    ensures AllUnset(a + b) <==> AllUnset(a) && AllUnset(b)
  {
    if AllUnset(a + b) {
      forall i | 0 <= i < |a| ensures a[i] == MaxInt32 {
        assert (a + b)[i] == a[i];
      }
      forall i | 0 <= i < |b| ensures b[i] == MaxInt32 {
        assert (a + b)[|a| + i] == b[i];
      }
    }
  }

  /** The answer depends only on which values are given, not on their order
      or on how often each occurs: two argument lists holding the same set
      of values get the same answer. */
  lemma {:induction false} AllUnsetIgnoresOrder(a: seq<int>, b: seq<int>)
    requires forall i :: 0 <= i < |a| ==> a[i] in b
    requires forall i :: 0 <= i < |b| ==> b[i] in a
    ensures AllUnset(a) <==> AllUnset(b)
  {
    if AllUnset(a) {
      forall i | 0 <= i < |b| ensures b[i] == MaxInt32 {
        assert b[i] in a;
        var j :| 0 <= j < |a| && a[j] == b[i];
      }
    }
    if AllUnset(b) {
      forall i | 0 <= i < |a| ensures a[i] == MaxInt32 {
        assert a[i] in b;
        var j :| 0 <= j < |b| && b[j] == a[i];
      }
    }
  }

  /** A permutation of the arguments gives the same answer. */
  lemma AllUnsetPermutation(a: seq<int>, b: seq<int>)
    requires multiset(a) == multiset(b)
    ensures AllUnset(a) <==> AllUnset(b)
  {
    forall i | 0 <= i < |a| ensures a[i] in b {
      assert a[i] in multiset(a);
    }
    forall i | 0 <= i < |b| ensures b[i] in a {
      assert b[i] in multiset(b);
    }
    AllUnsetIgnoresOrder(a, b);
  }

  /** With no flag given on the command line, the three limit flags hold their
      defaults, and no limit counts as set. */
  lemma DefaultsMeanNoLimit()
    ensures AllUnset([DefaultMax, DefaultPrivateMax, DefaultPublicMax])
    ensures DefaultMax == DefaultPrivateMax == DefaultPublicMax == 2147483647
  {
  }

  /** In any argument list, replacing one value by anything but the sentinel
      makes the answer false. */
  lemma {:induction false} AnySetLimitCounts(flags: seq<int>, k: nat, v: int)
    requires k < |flags| && v != MaxInt32
    ensures !AllUnset(flags[k := v])
  {
    assert flags[k := v][k] == v;
  }
}
