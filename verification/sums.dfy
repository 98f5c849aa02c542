/** The sum of the counts in a map. */
module Sums {
  ghost function Sum(counts: map<nat, nat>): nat {
    if counts == map[] then 0
    else
      var key :| key in counts;
      counts[key] + Sum(counts - {key})
  }

  lemma {:induction false} SumWithout(counts: map<nat, nat>, key: nat)
    requires key in counts
    ensures Sum(counts) == counts[key] + Sum(counts - {key})
    decreases |counts|
  {
    var first :| first in counts && Sum(counts) == counts[first] + Sum(counts - {first});
    if first != key {
      SumWithout(counts - {first}, key);
      SumWithout(counts - {key}, first);
      assert counts - {first} - {key} == counts - {key} - {first};
    }
  }

  lemma SumWith(counts: map<nat, nat>, key: nat, count: nat)
    ensures Sum(counts[key := count]) == Sum(counts - {key}) + count
  {
    SumWithout(counts[key := count], key);
    assert counts[key := count] - {key} == counts - {key};
  }
}
