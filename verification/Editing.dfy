/** What completion and history search find: the common prefix, and the newest match. */
module Editing {
  import opened Bytes
  import opened Screen
  import opened Terminal
  import opened Chunking

  /** Every candidate starts with the common prefix, and nothing longer does. */
  lemma {:induction false} CommonPrefixIs(items: seq<Text>)
    requires items != []
    ensures forall i :: 0 <= i < |items| ==> StartsWith(items[i], CommonPrefix(items))
    ensures forall p :: (forall i :: 0 <= i < |items| ==> StartsWith(items[i], p)) ==> StartsWith(CommonPrefix(items), p)
  {
    if |items| > 1 {
      var rest, last := items[..|items| - 1], items[|items| - 1];
      CommonPrefixIs(rest);
      ShrinkIs(CommonPrefix(rest), last);
      forall i | 0 <= i < |items| ensures StartsWith(items[i], CommonPrefix(items)) {
        if i < |rest| {
          assert rest[i] == items[i];
          StartsChain(items[i], CommonPrefix(rest), CommonPrefix(items));
        }
      }
      forall p | forall i :: 0 <= i < |items| ==> StartsWith(items[i], p) ensures StartsWith(CommonPrefix(items), p) {
        assert forall i :: 0 <= i < |rest| ==> rest[i] == items[i];
        assert StartsWith(CommonPrefix(rest), p) && StartsWith(last, p);
      }
    }
  }

  lemma StartsChain(a: Text, b: Text, c: Text)
    requires StartsWith(a, b) && StartsWith(b, c)
    ensures StartsWith(a, c)
  {
    assert a[..|c|] == a[..|b|][..|c|];
  }

  lemma ProperStart(t: Text, p: Text)
    requires StartsWith(t, p) && p != t
    ensures |p| < |t|
  {
    assert t[..|t|] == t;
  }

  lemma {:induction false} ShrinkIs(prefix: Text, item: Text)
    ensures StartsWith(prefix, Shrink(prefix, item)) && StartsWith(item, Shrink(prefix, item))
    ensures forall p :: StartsWith(prefix, p) && StartsWith(item, p) ==> StartsWith(Shrink(prefix, item), p)
    decreases |prefix|
  {
    if !StartsWith(item, prefix) {
      var shorter := prefix[..|prefix| - 1];
      ShrinkIs(shorter, item);
      StartsChain(prefix, shorter, Shrink(prefix, item));
      forall p | StartsWith(prefix, p) && StartsWith(item, p) ensures StartsWith(shorter, p) {
        ProperStart(prefix, p);
        assert shorter[..|p|] == prefix[..|p|];
      }
    } else {
      assert prefix[..|prefix|] == prefix;
    }
  }

  /** The search finds the newest line at or before `from` that includes the query, or nothing when none does. */
  lemma {:induction false} NewestMatch(history: seq<Text>, query: Text, from: int)
    requires query != []
    ensures var i := FindMatch(history, query, from); var top := if from < |history| then from else |history| - 1;
      && (i >= 0 ==> i <= top && Includes(history[i], query))
      && forall j :: (if i >= 0 then i + 1 else 0) <= j <= top ==> !Includes(history[j], query)
  {
    DownNewest(history, query, if from < |history| then from else |history| - 1);
  }

  lemma {:induction false} DownNewest(history: seq<Text>, query: Text, from: int)
    requires from < |history|
    ensures var i := FindDown(history, query, from);
      && (i >= 0 ==> i <= from && Includes(history[i], query))
      && forall j :: (if i >= 0 then i + 1 else 0) <= j <= from ==> !Includes(history[j], query)
    decreases from
  {
    hide Includes;
    if from >= 0 && !Includes(history[from], query) { DownNewest(history, query, from - 1); }
  }
}
