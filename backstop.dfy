/** The backstop Bloom filter DeepBloom builds (the BloomFilter class it imports), modelled by its
    interface only. Its bit array, sizing and hashing are not part of this model: what they make
    `check` report for an item that was never added is the uninterpreted `collision`, which sees the
    declared capacity, the target rate, the items added so far and the queried item. */
module Backstop {

  /** Whether the bits an item probes happen to be set although the item was not added. */
  type Collision = (nat, real, set<string>, string) -> bool

  class BloomFilter {
    const capacity: nat
    const rate: real
    const collision: Collision
    /** The items added so far; bits are only ever set, so this only grows. */
    var added: set<string>

    /** `BloomFilter(n, p, digest)`: an empty filter declared for `capacity` items at `rate`. */
    constructor (capacity: nat, rate: real, collision: Collision)
      ensures this.capacity == capacity && this.rate == rate && this.collision == collision
      ensures added == {}
    {
      this.capacity := capacity;
      this.rate := rate;
      this.collision := collision;
      added := {};
    }

    method Add(item: string)
      modifies this
      ensures added == old(added) + {item}
    {
      added := added + {item};
    }

    /** No false negatives: every added item is reported present. */
    function Check(item: string): (r: bool)
      reads this
      ensures item in added ==> r
      ensures item !in added ==> r == collision(capacity, rate, added, item)
    {
      item in added || collision(capacity, rate, added, item)
    }
  }
}
