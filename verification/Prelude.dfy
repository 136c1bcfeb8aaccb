/** Vocabulary shared by every component of the model. */
module Prelude {

  datatype Option<+T> = None | Some(value: T)

  /** Python's exceptions, as values: `Err` carries what was raised. */
  datatype Result<+T, +E> = Ok(value: T) | Err(error: E)

  /** Python's `sub in text`. */
  predicate Contains(text: string, sub: string) {
    exists i :: 0 <= i <= |text| && OccursAt(text, sub, i)
  }

  predicate OccursAt(text: string, sub: string, i: nat) {
    i + |sub| <= |text| && text[i..i + |sub|] == sub
  }

  /** `text` is some text, then `sub`, then some text. */
  ghost predicate Surrounds(text: string, sub: string) {
    exists before, after :: text == before + sub + after
  }

  lemma ContainsMeans(text: string, sub: string)
    ensures Contains(text, sub) <==> Surrounds(text, sub)
  {
    if i: nat :| i <= |text| && OccursAt(text, sub, i) {
      assert text == text[..i] + sub + text[i + |sub|..];
    }
    if before, after :| text == before + sub + after {
      assert text[|before|..|before| + |sub|] == sub;
      assert OccursAt(text, sub, |before|);
    }
  }

  ghost function Elems<T>(s: seq<T>): set<T> {
    set x | x in s
  }

  lemma LastCounted(all: set<nat>, before: set<nat>, n: nat, added: bool)
    requires n !in before && forall i: nat :: i in all <==> i in before || (i == n && added)
    ensures |all| == |before| + if added then 1 else 0
  {
    assert all == if added then before + {n} else before;
  }

  ghost predicate Distinct<T(!new)>(s: seq<T>) {
    forall i, j :: 0 <= i < j < |s| ==> s[i] != s[j]
  }

  /** `text.split(sep, limit)`: at most `limit` cuts, from the left. */
  function Split(s: string, sep: char, limit: nat): (parts: seq<string>)
    ensures |parts| >= 1
  {
    if limit == 0 || s == "" then [s]
    else if s[0] == sep then [""] + Split(s[1..], sep, limit - 1)
    else
      var rest := Split(s[1..], sep, limit);
      [[s[0]] + rest[0]] + rest[1..]
  }

  lemma {:induction false} SplitAtFirst(a: string, b: string, sep: char, limit: nat)
    requires sep !in a && limit > 0
    ensures Split(a + [sep] + b, sep, limit) == [a] + Split(b, sep, limit - 1)
  {
    var s := a + [sep] + b;
    if a == "" {
      assert s[1..] == b;
    } else {
      SplitAtFirst(a[1..], b, sep, limit);
      assert s[0] == a[0] && s[1..] == a[1..] + [sep] + b;
      assert [a[0]] + a[1..] == a;
    }
  }

  lemma {:induction false} SplitNowhere(s: string, sep: char, limit: nat)
    requires sep !in s
    ensures Split(s, sep, limit) == [s]
  {
    if limit > 0 && s != "" {
      SplitNowhere(s[1..], sep, limit);
      assert [s[0]] + s[1..] == s;
    }
  }

  lemma Associative<T>(a: seq<T>, b: seq<T>, c: seq<T>)
    ensures a + (b + c) == a + b + c
  {
  }
}
