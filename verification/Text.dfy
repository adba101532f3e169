/** Searching in text. */
module Text {

  /** `k` is the first index from `i` on that holds `c`, or the length. */
  ghost predicate FirstAt(s: string, c: char, i: nat, k: nat) {
    i <= k <= |s| && (k < |s| ==> s[k] == c) && forall j :: i <= j < k ==> s[j] != c
  }

  lemma {:induction false} FirstExists(s: string, c: char, i: nat) returns (k: nat)
    requires i <= |s|
    ensures FirstAt(s, c, i, k)
    decreases |s| - i
  {
    k := i;
    if i < |s| && s[i] != c {
      k := FirstExists(s, c, i + 1);
    }
  }

  ghost function IndexOf(s: string, c: char, i: nat): (k: nat)
    requires i <= |s|
    ensures FirstAt(s, c, i, k)
  {
    assert exists k: nat :: FirstAt(s, c, i, k) by {
      var k := FirstExists(s, c, i);
    }
    var k: nat :| FirstAt(s, c, i, k);
    k
  }

  lemma IndexIsUnique(s: string, c: char, i: nat, k: nat)
    requires FirstAt(s, c, i, k)
    ensures IndexOf(s, c, i) == k
  {
  }

  method Find(s: string, c: char, i: nat) returns (k: nat)
    requires i <= |s|
    ensures k == IndexOf(s, c, i)
  {
    k := i;
    while k < |s| && s[k] != c
      invariant i <= k <= |s|
      invariant forall j :: i <= j < k ==> s[j] != c
    {
      k := k + 1;
    }
    IndexIsUnique(s, c, i, k);
  }
}
