/**
 * A trainer's collection: one string of creature identifiers joined by
 * commas. Membership is Python's substring test `needle in hay`, which is
 * what the application uses, not membership among the comma-separated
 * entries; the two are related by the lemmas below.
 */
module Collection {

  /** Python's `needle in hay` on strings. */
  predicate Contains(hay: string, needle: string)
    ensures Contains(hay, needle) ==> |needle| <= |hay|
    ensures needle == "" ==> Contains(hay, needle)
    decreases |hay|
  {
    needle <= hay || (|hay| > 0 && Contains(hay[1..], needle))
  }

  /** `needle` occurs in `hay` starting at index `i`. */
  predicate OccursAt(hay: string, needle: string, i: nat)
  {
    i + |needle| <= |hay| && hay[i..i + |needle|] == needle
  }

  /** A slice of the tail is the slice of the whole one place further on. */
  lemma TailSlice(hay: string, i: nat, n: nat)
    requires i + 1 + n <= |hay|
    ensures hay[1..][i..i + n] == hay[i + 1..i + 1 + n]
  {
    var a, b := hay[1..][i..i + n], hay[i + 1..i + 1 + n];
    assert |a| == n == |b|;
    forall k | 0 <= k < n
      ensures a[k] == b[k]
    {
      assert a[k] == hay[1..][i + k] == hay[i + 1 + k];
    }
  }

  /** `Contains` is the substring relation. */
  lemma {:induction false} ContainsOccurs(hay: string, needle: string)
    ensures Contains(hay, needle) <==> exists i: nat :: OccursAt(hay, needle, i)
    decreases |hay|
  {
    if Contains(hay, needle) {
      if needle <= hay {
        assert OccursAt(hay, needle, 0);
      } else {
        ContainsOccurs(hay[1..], needle);
        var i: nat :| OccursAt(hay[1..], needle, i);
        TailSlice(hay, i, |needle|);
        assert OccursAt(hay, needle, i + 1);
      }
    }
    if exists i: nat :: OccursAt(hay, needle, i) {
      var i: nat :| OccursAt(hay, needle, i);
      if i == 0 {
        assert needle <= hay;
      } else {
        TailSlice(hay, i - 1, |needle|);
        assert OccursAt(hay[1..], needle, i - 1);
        ContainsOccurs(hay[1..], needle);
      }
    }
  }

  /** `pokemons += f",{entry}" if pokemons != "" else f"{entry}"`. */
  function AddEntry(pokemons: string, entry: string): (r: string)
    ensures |r| == |pokemons| + |entry| + (if pokemons == "" then 0 else 1)
    ensures pokemons <= r && entry == r[|r| - |entry|..]
  {
    pokemons + (if pokemons != "" then "," + entry else entry)
  }

  /** After the append the entry is found by the substring test, and what was there before is kept as a prefix. */
  lemma AddEntryContains(pokemons: string, entry: string)
    ensures Contains(AddEntry(pokemons, entry), entry)
    ensures pokemons <= AddEntry(pokemons, entry)
  {
    var r := AddEntry(pokemons, entry);
    assert OccursAt(r, entry, |r| - |entry|);
    ContainsOccurs(r, entry);
  }

  /** `s.split(",")`: the pieces between commas, always at least one. */
  function Split(s: string): (parts: seq<string>)
    ensures |parts| > 0
    decreases |s|
  {
    if s == [] then [[]]
    else
      var rest := Split(s[1..]);
      if s[0] == ',' then [[]] + rest else [[s[0]] + rest[0]] + rest[1..]
  }

  /** The identifiers a collection string lists: none for the empty string. */
  function Entries(pokemons: string): seq<string>
  {
    if pokemons == "" then [] else Split(pokemons)
  }

  lemma {:induction false} SplitNoComma(s: string)
    requires ',' !in s
    ensures Split(s) == [s]
    decreases |s|
  {
    if s != [] {
      assert ',' !in s[1..];
      SplitNoComma(s[1..]);
      assert [s[0]] + s[1..] == s;
    }
  }

  /** Splitting at a comma splits the two sides independently. */
  lemma {:induction false} SplitAtComma(a: string, b: string)
    ensures Split(a + [','] + b) == Split(a) + Split(b)
    decreases |a|
  {
    var s := a + [','] + b;
    if a == [] {
      assert s[1..] == b;
    } else {
      assert s[1..] == a[1..] + [','] + b;
      SplitAtComma(a[1..], b);
    }
  }

  /** The comma-aware append adds exactly one entry at the end. */
  lemma AddEntryEntries(pokemons: string, entry: string)
    requires entry != "" && ',' !in entry
    ensures Entries(AddEntry(pokemons, entry)) == Entries(pokemons) + [entry]
  {
    SplitNoComma(entry);
    if pokemons != "" {
      assert AddEntry(pokemons, entry) == pokemons + [','] + entry;
      SplitAtComma(pokemons, entry);
    } else {
      assert AddEntry(pokemons, entry) == entry;
    }
  }

  lemma {:induction false} SplitFirstIsPrefix(s: string)
    ensures Split(s)[0] <= s
    decreases |s|
  {
    if s != [] && s[0] != ',' {
      SplitFirstIsPrefix(s[1..]);
      assert s == [s[0]] + s[1..];
    }
  }

  /** Every piece of a split is a substring of the whole. */
  lemma {:induction false} SplitPartContained(s: string, k: nat)
    requires k < |Split(s)|
    ensures Contains(s, Split(s)[k])
    decreases |s|
  {
    if s == [] {
    } else if k == 0 {
      if s[0] != ',' {
        SplitFirstIsPrefix(s[1..]);
        assert s == [s[0]] + s[1..];
      }
    } else if s[0] == ',' {
      SplitPartContained(s[1..], k - 1);
    } else {
      SplitPartContained(s[1..], k);
    }
  }

  /** An identifier that is an entry is always caught by the substring test (no false negatives). */
  lemma EntryIsContained(pokemons: string, entry: string)
    requires entry in Entries(pokemons)
    ensures Contains(pokemons, entry)
  {
    var k :| 0 <= k < |Entries(pokemons)| && Entries(pokemons)[k] == entry;
    SplitPartContained(pokemons, k);
  }

  /**
   * When the substring test lets an identifier through, appending it leaves
   * it listed exactly once.
   */
  lemma AddEntryOnce(pokemons: string, entry: string)
    requires entry != "" && ',' !in entry
    requires !Contains(pokemons, entry)
    ensures multiset(Entries(AddEntry(pokemons, entry)))[entry] == 1
  {
    AddEntryEntries(pokemons, entry);
    if entry in Entries(pokemons) {
      EntryIsContained(pokemons, entry);
    }
  }

  /** The substring test has false positives: "1" is refused by "12", which lists only "12". */
  lemma SubstringFalsePositive()
    ensures Contains("12", "1") && Entries("12") == ["12"] && "1" !in Entries("12")
  {
    SplitNoComma("12");
  }
}
