/** The canonical key of a product variant: sorted code=value parts joined by bars. */
module CombinationKey {
  import Sorting
  import Text

  function Part(code: string, value: string): string
  {
    code + "=" + value
  }

  function Key(parts: seq<string>): string
  {
    Text.Join("|", Sorting.Sort(Text.Le, parts))
  }

  lemma LeIsOrder()
    ensures Sorting.TotalPreorder(Text.Le) && Sorting.Antisymmetric(Text.Le)
  {
    forall a, b ensures Text.Le(a, b) || Text.Le(b, a) {
      Text.LeTotal(a, b);
    }
    forall a, b | Text.Le(a, b) && Text.Le(b, a) ensures a == b {
      Text.LeTotal(a, b);
    }
    forall a, b, c | Text.Le(a, b) && Text.Le(b, c) ensures Text.Le(a, c) {
      Text.LeTransitive(a, b, c);
    }
  }

  /** The key does not depend on the order of the parts. */
  lemma KeyIgnoresOrder(a: seq<string>, b: seq<string>)
    requires multiset(a) == multiset(b)
    ensures Key(a) == Key(b)
  {
    hide Text.Le;
    LeIsOrder();
    Sorting.SortSorts(Text.Le, a);
    Sorting.SortSorts(Text.Le, b);
    Sorting.SortedUnique(Text.Le, Sorting.Sort(Text.Le, a), Sorting.Sort(Text.Le, b));
  }

  ghost predicate BarFree(parts: seq<string>)
  {
    forall i :: 0 <= i < |parts| ==> '|' !in parts[i]
  }

  lemma LastBar(a: string, x: string, b: string, y: string)
    requires a + "|" + x == b + "|" + y && '|' !in x && '|' !in y
    ensures a == b && x == y
  {
    var s := a + "|" + x;
    forall i | |a| < i < |s| ensures s[i] != '|' {
      assert s[i] == x[i - |a| - 1];
    }
    forall i | |b| < i < |s| ensures s[i] != '|' {
      assert s[i] == y[i - |b| - 1];
    }
    assert s[|a|] == '|' && s[|b|] == '|';
    assert a == s[..|a|] && b == s[..|b|];
    assert x == s[|a| + 1..] && y == s[|b| + 1..];
  }

  lemma JoinHasBar(parts: seq<string>)
    requires |parts| > 1
    ensures '|' in Text.Join("|", parts)
  {
    assert Text.Join("|", parts)[|Text.Join("|", parts[..|parts| - 1])|] == '|';
  }

  /** Where no part holds a bar, the joined string gives the parts back. */
  lemma {:induction false} JoinInjective(a: seq<string>, b: seq<string>)
    requires |a| > 0 && |b| > 0 && BarFree(a) && BarFree(b)
    requires Text.Join("|", a) == Text.Join("|", b)
    ensures a == b
  {
    var frontA, lastA := a[..|a| - 1], a[|a| - 1];
    var frontB, lastB := b[..|b| - 1], b[|b| - 1];
    assert a == frontA + [lastA] && b == frontB + [lastB];
    if |a| > 1 && |b| > 1 {
      LastBar(Text.Join("|", frontA), lastA, Text.Join("|", frontB), lastB);
      JoinInjective(frontA, frontB);
    } else if |a| > 1 {
      JoinHasBar(a);
    } else if |b| > 1 {
      JoinHasBar(b);
    }
  }

  /** Equal keys of bar-free parts come from the same parts, up to order. */
  lemma KeyInjective(a: seq<string>, b: seq<string>)
    requires |a| > 0 && |b| > 0 && BarFree(a) && BarFree(b)
    requires Key(a) == Key(b)
    ensures multiset(a) == multiset(b)
  {
    hide Text.Le, Text.Join;
    LeIsOrder();
    SortedParts(a);
    SortedParts(b);
    JoinInjective(Sorting.Sort(Text.Le, a), Sorting.Sort(Text.Le, b));
  }

  lemma SortedParts(a: seq<string>)
    requires |a| > 0 && BarFree(a)
    ensures multiset(Sorting.Sort(Text.Le, a)) == multiset(a)
    ensures |Sorting.Sort(Text.Le, a)| > 0 && BarFree(Sorting.Sort(Text.Le, a))
  {
    hide Text.Le;
    LeIsOrder();
    Sorting.SortSorts(Text.Le, a);
    var sorted := Sorting.Sort(Text.Le, a);
    assert |multiset(sorted)| == |multiset(a)|;
    forall i | 0 <= i < |sorted| ensures '|' !in sorted[i] {
      assert sorted[i] in multiset(a);
    }
  }

  /** A part splits at its first equals sign. */
  lemma PartInjective(code: string, value: string, otherCode: string, otherValue: string)
    requires '=' !in code && '=' !in otherCode
    requires Part(code, value) == Part(otherCode, otherValue)
    ensures code == otherCode && value == otherValue
  {
    var s := Part(code, value);
    assert s[|code|] == '=' && s[|otherCode|] == '=';
    assert forall i :: 0 <= i < |code| ==> s[i] == code[i];
    assert forall i :: 0 <= i < |otherCode| ==> s[i] == otherCode[i];
    assert code == s[..|code|] && otherCode == s[..|otherCode|];
    assert value == s[|code| + 1..] && otherValue == s[|otherCode| + 1..];
  }

  /** A key made of parts is never the key of a product without options. */
  lemma NotDefault(parts: seq<string>)
    requires |parts| > 0 && (forall i :: 0 <= i < |parts| ==> '=' in parts[i])
    ensures Key(parts) != "DEFAULT"
  {
    hide Text.Le;
    LeIsOrder();
    Sorting.SortSorts(Text.Le, parts);
    var sorted := Sorting.Sort(Text.Le, parts);
    assert |multiset(sorted)| == |multiset(parts)|;
    var last := sorted[|sorted| - 1];
    assert last in multiset(parts);
    var i :| 0 <= i < |last| && last[i] == '=';
    assert Key(parts)[|Key(parts)| - |last| + i] == '=';
    assert '=' !in "DEFAULT";
  }
}
