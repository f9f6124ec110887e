/** The byte order Go's string comparison and sort.Strings use. */
module Text {
  import opened Ids

  predicate StringLess(a: string, b: string) {
    b != [] && (a == [] || a[0] < b[0] || (a[0] == b[0] && StringLess(a[1..], b[1..])))
  }

  lemma {:induction false} StringTotal(a: string, b: string)
    ensures StringLess(a, b) || StringLess(b, a) || a == b
    ensures !(StringLess(a, b) && StringLess(b, a)) && !StringLess(a, a)
  {
    if a != [] {
      StringTotal(a[1..], a[1..]);
      if b != [] {
        StringTotal(a[1..], b[1..]);
        assert a == [a[0]] + a[1..] && b == [b[0]] + b[1..];
      }
    }
  }

  // A proper prefix comes first; otherwise the first place where they differ decides.
  lemma {:induction false} StringLessExact(a: string, b: string)
    ensures StringLess(a, b) <==>
              exists k :: 0 <= k <= |a| && k < |b| && a[..k] == b[..k] && (k == |a| || a[k] < b[k])
  {
    if a != [] && b != [] && a[0] == b[0] {
      StringLessExact(a[1..], b[1..]);
      if k :| 0 <= k < |a| && k < |b| - 1 && a[1..][..k] == b[1..][..k] && (k == |a| - 1 || a[1..][k] < b[1..][k]) {
        assert a[..k + 1] == [a[0]] + a[1..][..k] && b[..k + 1] == [b[0]] + b[1..][..k];
        assert k + 1 == |a| || a[k + 1] < b[k + 1];
      }
      if k :| 0 <= k <= |a| && k < |b| && a[..k] == b[..k] && (k == |a| || a[k] < b[k]) {
        assert k > 0;
        assert a[1..][..k - 1] == a[..k][1..] && b[1..][..k - 1] == b[..k][1..];
        assert k == |a| || a[1..][k - 1] < b[1..][k - 1];
      }
    } else if a == [] {
      assert b != [] ==> a[..0] == b[..0];
    } else if b != [] {
      assert a[0] < b[0] ==> a[..0] == b[..0];
      forall k | 0 < k <= |a| && k < |b| ensures a[..k] != b[..k] {
        assert a[..k][0] == a[0] && b[..k][0] == b[0];
      }
    }
  }

  lemma {:induction false} StringTransitive(a: string, b: string, c: string)
    requires StringLess(a, b) && StringLess(b, c)
    ensures StringLess(a, c)
  {
    if a != [] && a[0] == b[0] == c[0] {
      StringTransitive(a[1..], b[1..], c[1..]);
    }
  }

  lemma StringOrder()
    ensures forall a, b {:trigger StringLess(a, b)} :: StringLess(a, b) || StringLess(b, a) || a == b
    ensures forall a, b {:trigger StringLess(a, b)} :: !(StringLess(a, b) && StringLess(b, a))
    ensures forall a {:trigger StringLess(a, a)} :: !StringLess(a, a)
    ensures forall a, b, c {:trigger StringLess(a, b), StringLess(b, c)} :: StringLess(a, b) && StringLess(b, c) ==>
              StringLess(a, c)
  {
    forall a, b { StringTotal(a, b); }
    forall a, b, c | StringLess(a, b) && StringLess(b, c) { StringTransitive(a, b, c); }
  }

  ghost predicate TextsSorted(s: seq<string>) {
    forall i, j :: 0 <= i < j < |s| ==> StringLess(s[i], s[j])
  }

  function InsertText(x: string, s: seq<string>): (r: seq<string>) {
    if s == [] then [x]
    else if StringLess(s[0], x) then [s[0]] + InsertText(x, s[1..])
    else [x] + s
  }

  // sort.Strings.
  function SortTexts(s: seq<string>): (r: seq<string>) {
    if s == [] then [] else InsertText(s[0], SortTexts(s[1..]))
  }

  lemma {:induction false} InsertTextSorted(x: string, s: seq<string>)
    requires TextsSorted(s) && x !in s
    ensures TextsSorted(InsertText(x, s)) && forall y :: y in InsertText(x, s) <==> y == x || y in s
  {
    StringOrder();
    if s != [] && StringLess(s[0], x) {
      InsertTextSorted(x, s[1..]);
      var t := InsertText(x, s[1..]);
      assert forall y :: y in s <==> y == s[0] || y in s[1..];
      forall j | 0 <= j < |t| ensures StringLess(s[0], t[j]) {
        assert t[j] in t;
        if t[j] in s[1..] {
          var k :| 0 <= k < |s[1..]| && s[1..][k] == t[j];
          assert s[k + 1] == t[j];
        }
      }
    } else if s != [] {
      assert x != s[0];
      forall j | 0 <= j < |s| ensures StringLess(x, s[j]) {
        assert j > 0 ==> StringLess(s[0], s[j]);
      }
    }
  }

  lemma {:induction false} SortTextsSorted(s: seq<string>)
    requires NoDup(s)
    ensures TextsSorted(SortTexts(s)) && forall x :: x in SortTexts(s) <==> x in s
  {
    if s != [] {
      SortTextsSorted(s[1..]);
      assert forall y :: y in s <==> y == s[0] || y in s[1..];
      assert s[0] !in s[1..];
      InsertTextSorted(s[0], SortTexts(s[1..]));
    }
  }

  // Two sorted lists of the same strings are the same list.
  lemma {:induction false} TextsUnique(a: seq<string>, b: seq<string>)
    requires TextsSorted(a) && TextsSorted(b) && Elems(a) == Elems(b)
    ensures a == b
  {
    assert forall x :: x in a <==> x in b by {
      assert forall x :: x in a <==> x in Elems(a);
      assert forall x :: x in b <==> x in Elems(b);
    }
    assert forall i :: 0 <= i < |a| ==> a[i] in b;
    assert forall i :: 0 <= i < |b| ==> b[i] in a;
    if a != [] && b != [] {
      StringOrder();
      assert b[0] in a && a[0] in b;
      assert a[0] == b[0];
      forall x ensures x in Elems(a[1..]) <==> x in Elems(b[1..]) {
        assert x in a <==> x == a[0] || x in a[1..];
        assert x in b <==> x == b[0] || x in b[1..];
        assert a[0] !in a[1..] && b[0] !in b[1..];
      }
      TextsUnique(a[1..], b[1..]);
      assert a == [a[0]] + a[1..] && b == [b[0]] + b[1..];
    }
  }
}
