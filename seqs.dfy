/** Sequence facts shared by the URL store and the duplicate filter. */
module Seqs {

  /** No element occurs twice. */
  ghost predicate NoDup<T>(s: seq<T>)
  {
    forall i, j :: 0 <= i < j < |s| ==> s[i] != s[j]
  }

  /**
   * The elements of `xs` that are neither in `known` nor earlier in `xs`,
   * in the order they first occur: what a "reserve on first sight" store
   * accepts from `xs`.
   */
  function FirstSeen<T>(known: set<T>, xs: seq<T>): (r: seq<T>)
    ensures |r| <= |xs|
    decreases |xs|
  {
    if xs == [] then []
    else if xs[0] in known then FirstSeen(known, xs[1..])
    else [xs[0]] + FirstSeen(known + {xs[0]}, xs[1..])
  }

  /** The elements of `xs` that some earlier element or `known` already covers, in order. */
  function Repeats<T>(known: set<T>, xs: seq<T>): (r: seq<T>)
    ensures |r| <= |xs|
    decreases |xs|
  {
    if xs == [] then []
    else if xs[0] in known then [xs[0]] + Repeats(known, xs[1..])
    else Repeats(known + {xs[0]}, xs[1..])
  }

  /** Every element of `xs` is either first-seen or a repeat. */
  lemma {:induction false} FirstSeenRepeatsSplit<T>(known: set<T>, xs: seq<T>)
    ensures |FirstSeen(known, xs)| + |Repeats(known, xs)| == |xs|
    decreases |xs|
  {
    if xs != [] {
      if xs[0] in known {
        FirstSeenRepeatsSplit(known, xs[1..]);
      } else {
        FirstSeenRepeatsSplit(known + {xs[0]}, xs[1..]);
      }
    }
  }

  /** What `FirstSeen` contains: exactly the unknown elements of `xs`, each once. */
  lemma {:induction false} FirstSeenContents<T>(known: set<T>, xs: seq<T>)
    ensures NoDup(FirstSeen(known, xs))
    ensures forall x :: x in FirstSeen(known, xs) <==> x in xs && x !in known
    decreases |xs|
  {
    if xs != [] {
      if xs[0] in known {
        FirstSeenContents(known, xs[1..]);
        forall x ensures x in FirstSeen(known, xs) <==> x in xs && x !in known {
          assert x in xs <==> x == xs[0] || x in xs[1..];
        }
      } else {
        var rest := FirstSeen(known + {xs[0]}, xs[1..]);
        FirstSeenContents(known + {xs[0]}, xs[1..]);
        forall x ensures x in FirstSeen(known, xs) <==> x in xs && x !in known {
          assert x in xs <==> x == xs[0] || x in xs[1..];
        }
        forall i, j | 0 <= i < j < |[xs[0]] + rest| ensures ([xs[0]] + rest)[i] != ([xs[0]] + rest)[j] {
          if i == 0 {
            assert ([xs[0]] + rest)[j] == rest[j - 1];
          }
        }
      }
    }
  }

  /** Appending one element: it is accepted exactly when nothing before covered it. */
  lemma {:induction false} FirstSeenSnoc<T>(known: set<T>, xs: seq<T>, x: T)
    ensures FirstSeen(known, xs + [x])
         == FirstSeen(known, xs) + (if x in known || x in xs then [] else [x])
    decreases |xs|
  {
    if xs == [] {
      assert xs + [x] == [x];
    } else {
      assert (xs + [x])[0] == xs[0] && (xs + [x])[1..] == xs[1..] + [x];
      if xs[0] in known {
        FirstSeenSnoc(known, xs[1..], x);
        assert x in xs <==> x == xs[0] || x in xs[1..];
      } else {
        FirstSeenSnoc(known + {xs[0]}, xs[1..], x);
        assert x in xs <==> x == xs[0] || x in xs[1..];
      }
    }
  }

  /** Appending one element to the repeats. */
  lemma {:induction false} RepeatsSnoc<T>(known: set<T>, xs: seq<T>, x: T)
    ensures Repeats(known, xs + [x])
         == Repeats(known, xs) + (if x in known || x in xs then [x] else [])
    decreases |xs|
  {
    if xs == [] {
      assert xs + [x] == [x];
    } else {
      assert (xs + [x])[0] == xs[0] && (xs + [x])[1..] == xs[1..] + [x];
      if xs[0] in known {
        RepeatsSnoc(known, xs[1..], x);
        assert x in xs <==> x == xs[0] || x in xs[1..];
      } else {
        RepeatsSnoc(known + {xs[0]}, xs[1..], x);
        assert x in xs <==> x == xs[0] || x in xs[1..];
      }
    }
  }

  /**
   * Nothing is a repeat exactly when the elements are distinct and none is
   * known; then every element is first-seen.
   */
  lemma {:induction false} NoRepeats<T>(known: set<T>, xs: seq<T>)
    ensures Repeats(known, xs) == [] <==> NoDup(xs) && forall i :: 0 <= i < |xs| ==> xs[i] !in known
    ensures Repeats(known, xs) == [] ==> FirstSeen(known, xs) == xs
    decreases |xs|
  {
    if xs != [] {
      var k2 := known + {xs[0]};
      NoRepeats(k2, xs[1..]);
      if xs[0] !in known {
        if Repeats(k2, xs[1..]) == [] {
          forall i, j | 0 <= i < j < |xs| ensures xs[i] != xs[j] {
            assert xs[j] == xs[1..][j - 1];
            if i > 0 { assert xs[i] == xs[1..][i - 1]; }
          }
          forall i | 0 <= i < |xs| ensures xs[i] !in known {
            if i > 0 { assert xs[i] == xs[1..][i - 1]; }
          }
        } else {
          if NoDup(xs) && forall i :: 0 <= i < |xs| ==> xs[i] !in known {
            forall i | 0 <= i < |xs[1..]| ensures xs[1..][i] !in k2 {
              assert xs[1..][i] == xs[i + 1];
            }
            forall i, j | 0 <= i < j < |xs[1..]| ensures xs[1..][i] != xs[1..][j] {
              assert xs[1..][i] == xs[i + 1] && xs[1..][j] == xs[j + 1];
            }
            assert false;
          }
        }
      }
    }
  }

  /** Concatenation of a sequence of sequences, in order. */
  function Flatten<T>(ss: seq<seq<T>>): (r: seq<T>)
  {
    if ss == [] then [] else ss[0] + Flatten(ss[1..])
  }

  lemma {:induction false} FlattenUpdateAppend<T>(ss: seq<seq<T>>, i: nat, x: T)
    requires i < |ss|
    ensures multiset(Flatten(ss[i := ss[i] + [x]])) == multiset(Flatten(ss)) + multiset{x}
  {
    if i == 0 {
      assert ss[i := ss[i] + [x]][1..] == ss[1..];
    } else {
      assert ss[i := ss[i] + [x]][1..] == ss[1..][i - 1 := ss[1..][i - 1] + [x]];
      FlattenUpdateAppend(ss[1..], i - 1, x);
    }
  }
}
