/**
 * The price helpers of frontend/src/utils/currency.ts, on whole numbers:
 * `toRupiah` groups the digits of the integer part in threes, and
 * `averageNum` is a guarded division.
 */
module Currency {
  import opened Text

  /** What `toRupiah` returns: a falsy price itself, or the formatted text. */
  datatype Shown = Unchanged(price: int) | Formatted(text: string)

  /** The separator the reduce step puts after the character at reversed index i. */
  function Separator(c: char, i: nat, prefix: string): string
  {
    if c != '-' && i != 0 && i % 3 == 0 then prefix else ""
  }

  /**
   * `rev.reduce((acc, int, i) => int + separator + acc, acc)` from index i
   * on: each character is put in front of what was built so far.
   */
  function Fold(rev: string, i: nat, acc: string, prefix: string): string
    requires i <= |rev|
    decreases |rev| - i
  {
    if i == |rev| then acc
    else Fold(rev, i + 1, [rev[i]] + Separator(rev[i], i, prefix) + acc, prefix)
  }

  /** `toRupiah(price, prefix)`; the integer part of `toFixed(2)` of a whole number is its numeral. */
  function ToRupiah(price: int, prefix: string): (r: Shown)
    ensures r.Unchanged? <==> price == 0
    ensures r.Unchanged? ==> r.price == price
    ensures r.Formatted? ==> "Rp" <= r.text
  {
    if price == 0 then Unchanged(price)
    else Formatted("Rp" + Fold(Reverse(IntToString(price)), 0, "", prefix))
  }

  /**
   * Digit grouping stated from the front: every character is followed by
   * the separator exactly when it is not '-' and a positive multiple of
   * three characters follows it.
   */
  function Grouped(s: string, prefix: string): (r: string)
    ensures |r| >= |s|
    ensures prefix == "" ==> r == s
  {
    if s == [] then []
    else [s[0]] + (if s[0] != '-' && (|s| - 1) % 3 == 0 && |s| > 1 then prefix else "") + Grouped(s[1..], prefix)
  }

  /** The reduce over the reversed numeral builds the grouping from the back. */
  lemma {:induction false} FoldGroups(s: string, i: nat, prefix: string)
    requires i <= |s|
    ensures Fold(Reverse(s), i, Grouped(s[|s| - i..], prefix), prefix) == Grouped(s, prefix)
    decreases |s| - i
  {
    if i < |s| {
      var rev := Reverse(s);
      var j := |s| - 1 - i;
      assert rev[i] == s[j];
      assert s[j..][1..] == s[j + 1..];
      assert Grouped(s[j..], prefix) == [rev[i]] + Separator(rev[i], i, prefix) + Grouped(s[|s| - i..], prefix);
      FoldGroups(s, i + 1, prefix);
    } else {
      assert s[|s| - i..] == s;
    }
  }

  /** A formatted price is "Rp" followed by the grouped numeral. */
  lemma ToRupiahGroups(price: int, prefix: string)
    requires price != 0
    ensures ToRupiah(price, prefix) == Formatted("Rp" + Grouped(IntToString(price), prefix))
  {
    var s := IntToString(price);
    assert s[|s| - 0..] == [];
    FoldGroups(s, 0, prefix);
  }

  /** `s` with every '.' deleted. */
  function DropDots(s: string): (r: string)
    ensures |r| <= |s|
    ensures forall i :: 0 <= i < |r| ==> r[i] != '.'
  {
    if s == [] then [] else (if s[0] == '.' then [] else [s[0]]) + DropDots(s[1..])
  }

  /** A text without dots is left as it is. */
  lemma {:induction false} DropDotsOfDotFree(s: string)
    requires forall i :: 0 <= i < |s| ==> s[i] != '.'
    ensures DropDots(s) == s
  {
    if s != [] {
      assert forall i :: 0 <= i < |s[1..]| ==> s[1..][i] != '.' by {
        forall i | 0 <= i < |s[1..]| ensures s[1..][i] != '.' {
          assert s[1..][i] == s[i + 1];
        }
      }
      DropDotsOfDotFree(s[1..]);
      assert [s[0]] + s[1..] == s;
    }
  }

  /** Deleting the dots keeps every other character, each as often as it occurs. */
  lemma {:induction false} DropDotsKeeps(s: string, c: char)
    requires c != '.'
    ensures multiset(DropDots(s))[c] == multiset(s)[c]
  {
    if s != [] {
      DropDotsKeeps(s[1..], c);
      assert s == [s[0]] + s[1..];
      assert multiset(s) == multiset([s[0]]) + multiset(s[1..]);
      var head := if s[0] == '.' then [] else [s[0]];
      assert DropDots(s) == head + DropDots(s[1..]);
      assert multiset(DropDots(s)) == multiset(head) + multiset(DropDots(s[1..]));
    }
  }

  /** Deleting the separators gives back the numeral. */
  lemma {:induction false} DropDotsOfGrouped(s: string)
    requires forall i :: 0 <= i < |s| ==> s[i] != '.'
    ensures DropDots(Grouped(s, ".")) == s
  {
    if s != [] {
      var sep := if s[0] != '-' && (|s| - 1) % 3 == 0 && |s| > 1 then "." else "";
      var rest := Grouped(s[1..], ".");
      assert Grouped(s, ".") == [s[0]] + sep + rest;
      DropDotsAppend([s[0]] + sep, rest);
      DropDotsAppend([s[0]], sep);
      assert DropDots([s[0]]) == [s[0]];
      assert DropDots(sep) == [];
      assert forall i :: 0 <= i < |s[1..]| ==> s[1..][i] != '.' by {
        forall i | 0 <= i < |s[1..]| ensures s[1..][i] != '.' {
          assert s[1..][i] == s[i + 1];
        }
      }
      DropDotsOfGrouped(s[1..]);
      assert [s[0]] + s[1..] == s;
    }
  }

  lemma {:induction false} DropDotsAppend(a: string, b: string)
    ensures DropDots(a + b) == DropDots(a) + DropDots(b)
  {
    if a != [] {
      var head := if a[0] == '.' then [] else [a[0]];
      assert (a + b)[0] == a[0] && (a + b)[1..] == a[1..] + b;
      assert DropDots(a + b) == head + DropDots(a[1..] + b);
      DropDotsAppend(a[1..], b);
      assert DropDots(a) == head + DropDots(a[1..]);
    } else {
      assert a + b == b;
    }
  }

  /** A numeral contains no '.'. */
  lemma IntToStringHasNoDot(n: int)
    ensures forall i :: 0 <= i < |IntToString(n)| ==> IntToString(n)[i] != '.'
  {
    if n < 0 {
      NatToStringDigits(-n);
      assert IntToString(n) == "-" + NatToString(-n);
    } else {
      NatToStringDigits(n);
    }
  }

  /**
   * With the default prefix, deleting the dots from the text after "Rp"
   * gives exactly the numeral of the price.
   */
  lemma ToRupiahDigits(price: int)
    requires price != 0
    ensures var r := ToRupiah(price, ".");
            && r.Formatted? && |r.text| >= 2 && r.text[..2] == "Rp"
            && DropDots(r.text[2..]) == IntToString(price)
  {
    ToRupiahGroups(price, ".");
    IntToStringHasNoDot(price);
    DropDotsOfGrouped(IntToString(price));
    var g := Grouped(IntToString(price), ".");
    assert ("Rp" + g)[2..] == g;
  }

  /** The grouped text ends with the last character of the numeral, never with a separator. */
  lemma {:induction false} GroupedEnds(s: string)
    requires s != []
    ensures var g := Grouped(s, ".");
            g != [] && g[0] == s[0] && g[|g| - 1] == s[|s| - 1]
  {
    if |s| > 1 {
      GroupedEnds(s[1..]);
    }
  }

  /** No separator directly follows a '-'. */
  lemma {:induction false} NoDotAfterMinus(s: string, i: nat)
    requires i + 1 < |Grouped(s, ".")| && Grouped(s, ".")[i] == '-'
    requires forall k :: 0 <= k < |s| ==> s[k] != '.'
    ensures Grouped(s, ".")[i + 1] != '.'
  {
    var g := Grouped(s, ".");
    var head := [s[0]] + (if s[0] != '-' && (|s| - 1) % 3 == 0 && |s| > 1 then "." else "");
    assert g == head + Grouped(s[1..], ".");
    if i == 0 {
      if |s| == 1 {
        assert false;
      }
      GroupedEnds(s[1..]);
    } else if |head| == 2 && i == 1 {
      assert false;
    } else {
      NoDotAfterMinus(s[1..], i - |head|);
    }
  }

  /** Zero is falsy and comes back unchanged. */
  lemma ZeroUnchanged()
    ensures ToRupiah(0, ".") == Unchanged(0)
  {
  }

  /** A separator goes before every group of three trailing digits. */
  lemma GroupedThousands()
    ensures Grouped("1234", ".") == "1.234"
  {
  }

  /** A sign takes no separator after it, even when three digits follow. */
  lemma GroupedNegative()
    ensures Grouped("-123", ".") == "-123"
    ensures Grouped("-1234", ".") == "-1.234"
  {
  }

  /** `averageNum(total, length)` */
  function AverageNum(total: real, length: real): (r: real)
    ensures length > 0.0 ==> r * length == total
    ensures length <= 0.0 ==> r == total
  {
    if length > 0.0 then total / length else total
  }
}
