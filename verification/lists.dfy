/** The two array filters the form uses, `xs.filter((_, i) => i !== index)`
    and `xs.filter(x => x !== value)`, and the facts about them the form's
    invariants need. */
module Lists {

  /** No value occurs twice. */
  predicate NoDuplicates<T(==)>(s: seq<T>)
    decreases |s|
  {
    |s| == 0 || (s[0] !in s[1..] && NoDuplicates(s[1..]))
  }

  /** `r` is `s` with some elements left out, the rest in their order. */
  predicate IsSubsequence<T(==)>(r: seq<T>, s: seq<T>)
    decreases |s|
  {
    if |r| == 0 then true
    else if |s| == 0 then false
    else (r[0] == s[0] && IsSubsequence(r[1..], s[1..])) || IsSubsequence(r, s[1..])
  }

  /** The filter by position, walking `s` whose first element sits at
      position `i` of the whole array. */
  function KeepOthersFrom<T>(s: seq<T>, index: int, i: int): (r: seq<T>)
    ensures i <= index < i + |s| ==>
      && |r| == |s| - 1
      && (forall k :: 0 <= k < index - i ==> r[k] == s[k])
      && (forall k :: index - i <= k < |r| ==> r[k] == s[k + 1])
    ensures !(i <= index < i + |s|) ==> r == s
    decreases |s|
  {
    if |s| == 0 then []
    else
      var rest := KeepOthersFrom(s[1..], index, i + 1);
      if i == index then rest
      else [s[0]] + rest
  }

  /** `s.filter((_, i) => i !== index)`: drops the element at `index`, or
      nothing when `index` is out of range. */
  function RemoveAt<T>(s: seq<T>, index: int): (r: seq<T>)
    ensures 0 <= index < |s| ==> |r| == |s| - 1 && r == s[..index] + s[index + 1..]
    ensures !(0 <= index < |s|) ==> r == s
  {
    var r := KeepOthersFrom(s, index, 0);
    assert 0 <= index < |s| ==> r == s[..index] + s[index + 1..];
    r
  }

  /** `s.filter(x => x !== value)`: every occurrence of `value` goes, every
      other element stays, in order. */
  function RemoveAll<T(==,!new)>(s: seq<T>, value: T): (r: seq<T>)
    ensures multiset(r) == multiset(s)[value := 0]
    ensures forall x :: x in r <==> x in s && x != value
    ensures IsSubsequence(r, s)
    decreases |s|
  {
    if |s| == 0 then []
    else
      var rest := RemoveAll(s[1..], value);
      assert s == [s[0]] + s[1..];
      if s[0] == value then
        SubsequenceSkip(rest, s);
        rest
      else
        [s[0]] + rest
  }

  lemma SubsequenceSkip<T>(r: seq<T>, s: seq<T>)
    requires |s| > 0 && IsSubsequence(r, s[1..])
    ensures IsSubsequence(r, s)
  {
  }

  /** Removing a value that is absent changes nothing. */
  lemma {:induction false} RemoveAllAbsent<T(!new)>(s: seq<T>, value: T)
    requires value !in s
    ensures RemoveAll(s, value) == s
    decreases |s|
  {
    if |s| > 0 {
      assert s[0] != value;
      RemoveAllAbsent(s[1..], value);
    }
  }

  /** Removing a value from a list without duplicates leaves one. */
  lemma {:induction false} RemoveAllNoDuplicates<T(!new)>(s: seq<T>, value: T)
    requires NoDuplicates(s)
    ensures NoDuplicates(RemoveAll(s, value))
    decreases |s|
  {
    if |s| > 0 {
      RemoveAllNoDuplicates(s[1..], value);
      var rest := RemoveAll(s[1..], value);
      if s[0] != value {
        var r := [s[0]] + rest;
        assert r[1..] == rest;
        assert s[0] !in rest;
      }
    }
  }

  /** Appending a value that is absent keeps a list free of duplicates. */
  lemma {:induction false} AppendNoDuplicates<T>(s: seq<T>, value: T)
    requires NoDuplicates(s) && value !in s
    ensures NoDuplicates(s + [value])
    decreases |s|
  {
    if |s| > 0 {
      AppendNoDuplicates(s[1..], value);
      assert (s + [value])[1..] == s[1..] + [value];
    }
  }
}
