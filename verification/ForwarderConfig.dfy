// The list of forwarders and its order after failures: src/forwarder_config.cpp.

module ForwarderConfigs {

  type Address = nat // a socket address as the number its octets spell

  datatype Forwarder = Forwarder(remote: Address, disablePki: bool, host: string, pin: seq<nat>)

  /** The first place of a forwarder with this remote, or the length of the list. */
  function Find(fs: seq<Forwarder>, remote: Address): (i: nat)
    ensures i <= |fs|
    ensures forall k :: 0 <= k < i ==> fs[k].remote != remote
    ensures i < |fs| ==> fs[i].remote == remote
  {
    if fs == [] || fs[0].remote == remote then 0 else 1 + Find(fs[1..], remote)
  }

  /** The list once `remote` has failed. */
  function Demoted(fs: seq<Forwarder>, remote: Address): (r: seq<Forwarder>)
    ensures |r| == |fs|
  {
    var i := Find(fs, remote);
    if i == |fs| then fs else fs[..i] + fs[i + 1..] + [fs[i]]
  }

  /** The list after a run of failures, oldest first. */
  function AfterFailures(fs: seq<Forwarder>, failures: seq<Address>): (r: seq<Forwarder>)
    ensures |r| == |fs|
  {
    if failures == [] then fs
    else Demoted(AfterFailures(fs, failures[..|failures| - 1]), failures[|failures| - 1])
  }

  class ForwarderConfig {
    var timeout: nat
    var forwarders: seq<Forwarder>

    constructor ()
      ensures timeout == 5 && forwarders == []
    {
      timeout, forwarders := 5, [];
    }

    method Clear()
      modifies this
      ensures forwarders == [] && timeout == old(timeout)
    {
      forwarders := [];
    }

    method AddForwarder(config: Forwarder)
      modifies this
      ensures forwarders == old(forwarders) + [config] && timeout == old(timeout)
    {
      forwarders := forwarders + [config];
    }

    method SetTimeout(seconds: nat)
      modifies this
      ensures timeout == seconds && forwarders == old(forwarders)
    {
      timeout := seconds;
    }

    /** Looks for the failed forwarder and rotates it to the end. */
    method SetBad(remote: Address)
      modifies this`forwarders
      ensures forwarders == Demoted(old(forwarders), remote)
    {
      var i := 0;
      while i < |forwarders|
        invariant i <= Find(forwarders, remote) && forwarders == old(forwarders)
      {
        if forwarders[i].remote == remote {
          forwarders := forwarders[..i] + forwarders[i + 1..] + [forwarders[i]];
          return;
        }
        i := i + 1;
      }
    }
  }

  // ------------------------------------------------ the order a run of failures leaves

  predicate Distinct(fs: seq<Forwarder>) {
    forall i, j :: 0 <= i < j < |fs| ==> fs[i].remote != fs[j].remote
  }

  /** When `remote` failed last: its last place among the failures, or -1 for never. */
  function LastFailure(failures: seq<Address>, remote: Address): (t: int)
    ensures -1 <= t < |failures|
    ensures t >= 0 ==> failures[t] == remote
    ensures forall k :: t < k < |failures| ==> failures[k] != remote
  {
    if failures == [] then -1
    else if failures[|failures| - 1] == remote then |failures| - 1
    else LastFailure(failures[..|failures| - 1], remote)
  }

  /** `x` is tried before `y`: it failed longer ago, or neither ever failed and it is configured first. */
  predicate Before(fs: seq<Forwarder>, failures: seq<Address>, x: Address, y: Address) {
    var tx, ty := LastFailure(failures, x), LastFailure(failures, y);
    tx < ty || (tx == ty == -1 && Find(fs, x) < Find(fs, y))
  }

  predicate Ordered(fs: seq<Forwarder>, failures: seq<Address>, r: seq<Forwarder>) {
    forall i, j :: 0 <= i < j < |r| ==> Before(fs, failures, r[i].remote, r[j].remote)
  }

  lemma DemotedIsPermutation(fs: seq<Forwarder>, remote: Address)
    ensures multiset(Demoted(fs, remote)) == multiset(fs)
  {
    var i := Find(fs, remote);
    if i < |fs| {
      RotatedIsPermutation(fs[..i], fs[i], fs[i + 1..]);
      SplitAt(fs, i);
    }
  }

  lemma SplitAt(fs: seq<Forwarder>, i: nat)
    requires i < |fs|
    ensures fs == fs[..i] + [fs[i]] + fs[i + 1..]
  {
  }

  lemma RotatedIsPermutation(a: seq<Forwarder>, f: Forwarder, b: seq<Forwarder>)
    ensures multiset(a + b + [f]) == multiset(a + [f] + b)
  {
  }

  lemma DemotedIsDistinct(fs: seq<Forwarder>, remote: Address)
    requires Distinct(fs)
    ensures Distinct(Demoted(fs, remote))
  {
    hide Find;
    var i := Find(fs, remote);
    var d := Demoted(fs, remote);
    forall j, k | 0 <= j < k < |d| ensures d[j].remote != d[k].remote {
      var a := if i == |fs| || j < i then j else j + 1;
      var b := if i == |fs| || k < i then k else if k < |fs| - 1 then k + 1 else i;
      assert d[j] == fs[a] && d[k] == fs[b] && a != b;
    }
  }

  lemma FindConfigured(fs: seq<Forwarder>, i: nat)
    requires Distinct(fs) && i < |fs|
    ensures Find(fs, fs[i].remote) == i
  {
  }

  /** One more failure: the demoted forwarder is last, the others keep their order. */
  lemma DemotedOrdered(fs: seq<Forwarder>, failures: seq<Address>, r: seq<Forwarder>, remote: Address)
    requires Distinct(r) && Ordered(fs, failures, r)
    ensures Ordered(fs, failures + [remote], Demoted(r, remote))
  {
    hide Find, LastFailure, Demoted, Before;
    forall i, j | 0 <= i < j < |Demoted(r, remote)|
      ensures Before(fs, failures + [remote], Demoted(r, remote)[i].remote, Demoted(r, remote)[j].remote)
    {
      DemotedPair(fs, failures, r, remote, i, j);
    }
  }

  lemma DemotedPair(fs: seq<Forwarder>, failures: seq<Address>, r: seq<Forwarder>, remote: Address, i: nat, j: nat)
    requires Distinct(r) && Ordered(fs, failures, r) && i < j < |r|
    ensures Before(fs, failures + [remote], Demoted(r, remote)[i].remote, Demoted(r, remote)[j].remote)
  {
    hide Find, LastFailure;
    LaterFailure(failures, remote);
    var d, k := Demoted(r, remote), Find(r, remote);
    var a, b := if i < k then i else i + 1, if j < k then j else j + 1;
    if k == |r| || j < |d| - 1 {
      assert d[i] == r[a] && d[j] == r[b] && r[a].remote != remote && r[b].remote != remote;
      assert Before(fs, failures, r[a].remote, r[b].remote);
    } else {
      assert d[i] == r[a] && d[j] == r[k] && r[a].remote != remote;
    }
  }

  lemma LaterFailure(failures: seq<Address>, remote: Address)
    ensures forall x :: LastFailure(failures + [remote], x)
                        == if x == remote then |failures| else LastFailure(failures, x)
  {
    assert (failures + [remote])[..|failures|] == failures;
  }

  /**
   * After any run of failures the list is the configured one, ordered by how
   * long ago each forwarder failed, the never-failed ones first as configured.
   */
  lemma {:induction false} FailoverOrder(fs: seq<Forwarder>, failures: seq<Address>)
    requires Distinct(fs)
    ensures var r := AfterFailures(fs, failures);
            multiset(r) == multiset(fs) && Distinct(r) && Ordered(fs, failures, r)
  {
    if failures == [] {
      forall i, j | 0 <= i < j < |fs| ensures Before(fs, failures, fs[i].remote, fs[j].remote) {
        FindConfigured(fs, i);
        FindConfigured(fs, j);
      }
    } else {
      var before, last := failures[..|failures| - 1], failures[|failures| - 1];
      FailoverOrder(fs, before);
      var r := AfterFailures(fs, before);
      DemotedIsPermutation(r, last);
      DemotedIsDistinct(r, last);
      DemotedOrdered(fs, before, r, last);
      assert before + [last] == failures;
    }
  }

  /** What get() offers next: every other configured forwarder comes after it. */
  lemma NextForwarder(fs: seq<Forwarder>, failures: seq<Address>, f: Forwarder)
    requires Distinct(fs) && f in fs
    ensures var first := AfterFailures(fs, failures)[0];
            first in fs && (f == first || Before(fs, failures, first.remote, f.remote))
  {
    FailoverOrder(fs, failures);
    var r := AfterFailures(fs, failures);
    assert forall x :: x in multiset(fs) <==> x in fs;
    assert forall x :: x in multiset(r) <==> x in r;
    assert r[0] in r && f in r;
  }

  /** The order fixes the list: no other arrangement of the configuration has it. */
  lemma {:induction false} OrderIsUnique(fs: seq<Forwarder>, failures: seq<Address>,
                                         r: seq<Forwarder>, s: seq<Forwarder>)
    requires multiset(r) == multiset(s) && Ordered(fs, failures, r) && Ordered(fs, failures, s)
    ensures r == s
  {
    if r == [] || s == [] {
      assert |multiset(r)| == |r| && |multiset(s)| == |s|;
    } else {
      HeadsAgree(fs, failures, r, s);
      assert r == [r[0]] + r[1..] && s == [s[0]] + s[1..];
      assert multiset(r[1..]) == multiset(r) - multiset{r[0]};
      assert multiset(s[1..]) == multiset(s) - multiset{s[0]};
      OrderIsUnique(fs, failures, r[1..], s[1..]);
    }
  }

  lemma HeadsAgree(fs: seq<Forwarder>, failures: seq<Address>, r: seq<Forwarder>, s: seq<Forwarder>)
    requires multiset(r) == multiset(s) && r != [] && s != []
    requires Ordered(fs, failures, r) && Ordered(fs, failures, s)
    ensures r[0] == s[0]
  {
    assert r[0] in multiset(r) && s[0] in multiset(s);
    assert r[0] in s && s[0] in r;
    var i :| 0 <= i < |s| && s[i] == r[0];
    var j :| 0 <= j < |r| && r[j] == s[0];
    if i > 0 && j > 0 {
      assert false;
    }
  }
}
