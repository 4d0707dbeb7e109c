/** Input masks of the product and user forms (`Mask.cpfCnpj`, `Mask.cep`).

    Every mask first deletes the non-digits (`replace(/\D/g, "")`), drops one
    trailing digit when the field is over its cap, and then applies a chain of
    `replace(/(\d{k})(\d)/, "$1<sep>$2")` steps.  Such a step has no `g` flag:
    it rewrites the leftmost place where k + 1 digits stand in a row, putting
    `<sep>` after the first k of them.  `ReplaceFirst` is exactly that step.
    `Punctuate` is the independent reference: cut a digit string into groups
    of given widths, writing a separator after a group only when digits follow. */
module Masks {

  predicate IsDigit(c: char) {
    '0' <= c <= '9'
  }

  predicate AllDigits(s: string) {
    forall i :: 0 <= i < |s| ==> IsDigit(s[i])
  }

  /** `value.replace(/\D/g, "")`: the digits of `s`, in order. */
  function Digits(s: string): (d: string)
    ensures AllDigits(d)
    ensures |d| <= |s|
  {
    if s == [] then []
    else (if IsDigit(s[0]) then [s[0]] else []) + Digits(s[1..])
  }

  /** `if (value.length > cap) value = value.slice(0, -1)`: one character at most is dropped. */
  function Cap(d: string, cap: nat): (r: string)
    ensures |r| == if |d| > cap then |d| - 1 else |d|
    ensures r <= d
    ensures AllDigits(d) ==> AllDigits(r)
  {
    if |d| > cap then d[..|d| - 1] else d
  }

  /** One `value.replace(/(\d{k})(\d)/, "$1" + sep + "$2")` step: the leftmost
      run of k + 1 digits gets `sep` written after its k-th digit; when there
      is no such run the value is returned as it is. */
  function ReplaceFirst(s: string, k: nat, sep: char): (r: string)
    ensures |r| == |s| || |r| == |s| + 1
    decreases |s|
  {
    if |s| <= k then s
    else if AllDigits(s[..k + 1]) then s[..k] + [sep] + s[k..]
    else [s[0]] + ReplaceFirst(s[1..], k, sep)
  }

  /** A group of `width` digits followed by `sep` (when more digits follow). */
  datatype Cut = Cut(width: nat, sep: char)

  predicate SeparatorsOnly(cuts: seq<Cut>) {
    forall i :: 0 <= i < |cuts| ==> !IsDigit(cuts[i].sep)
  }

  predicate WidthsAtMost(cuts: seq<Cut>, k: nat) {
    forall i :: 0 <= i < |cuts| ==> cuts[i].width <= k
  }

  /** Reference layout: the digits `d` cut into the groups of `cuts`, a
      separator being written after a group only when at least one digit
      follows it. */
  function Punctuate(d: string, cuts: seq<Cut>): string
    decreases |cuts|
  {
    if cuts == [] || |d| <= cuts[0].width then d
    else d[..cuts[0].width] + [cuts[0].sep] + Punctuate(d[cuts[0].width..], cuts[1..])
  }

  /** CNPJ `DD.DDD.DDD/DDDD-DD`, CPF `DDD.DDD.DDD-DD`, CEP `DDDDD-DDD`. */
  const CNPJ_CUTS: seq<Cut> := [Cut(2, '.'), Cut(3, '.'), Cut(3, '/'), Cut(4, '-')]
  const CPF_CUTS: seq<Cut> := [Cut(3, '.'), Cut(3, '.'), Cut(3, '-')]
  const CEP_CUTS: seq<Cut> := [Cut(5, '-')]

  const CPF_CNPJ_CAP: nat := 14
  const CEP_CAP: nat := 8

  /** `Mask.cpfCnpj`, step by step as the source writes it.  The result is
      the reference layout of the capped digits: CNPJ groups (cuts after
      digits 2, 5, 8, 12) above 11 digits, CPF groups (3, 6, 9) otherwise. */
  function CpfCnpj(value: string): (r: string)
    ensures var d := Cap(Digits(value), CPF_CNPJ_CAP);
            r == Punctuate(d, if |d| > 11 then CNPJ_CUTS else CPF_CUTS)
  {
    var digits := Cap(Digits(value), CPF_CNPJ_CAP);
    if |digits| > 11 then
      CnpjSteps(digits);
      var v1 := ReplaceFirst(digits, 2, '.');
      var v2 := ReplaceFirst(v1, 3, '.');
      var v3 := ReplaceFirst(v2, 3, '/');
      ReplaceFirst(v3, 4, '-')
    else
      CpfSteps(digits);
      var v1 := ReplaceFirst(digits, 3, '.');
      var v2 := ReplaceFirst(v1, 3, '.');
      ReplaceFirst(v2, 3, '-')
  }

  /** `Mask.cep`: the layout "5 digits, `-`" of the capped digits. */
  function Cep(value: string): (r: string)
    ensures r == Punctuate(Cap(Digits(value), CEP_CAP), CEP_CUTS)
  {
    var digits := Cap(Digits(value), CEP_CAP);
    assert Punctuate(digits, []) == digits && [] + [Cut(5, '-')] == CEP_CUTS;
    ReplaceFirstExtends(digits, [], 5, '-');
    ReplaceFirst(digits, 5, '-')
  }

  /** `s` has the layout `pattern`, where `D` stands for any digit and every
      other character of `pattern` stands for itself. */
  predicate Fits(s: string, pattern: string) {
    |s| == |pattern| &&
    forall i :: 0 <= i < |s| ==>
      if pattern[i] == 'D' then IsDigit(s[i]) else s[i] == pattern[i]
  }

  // ---------------------------------------------------------------------------
  // Facts about the building blocks

  lemma {:induction false} DigitsConcat(a: string, b: string)
    ensures Digits(a + b) == Digits(a) + Digits(b)
    decreases |a|
  {
    if a == [] {
      assert a + b == b;
    } else {
      var first: string := if IsDigit(a[0]) then [a[0]] else [];
      calc {
        Digits(a + b);
        { assert (a + b)[0] == a[0]; }
        first + Digits((a + b)[1..]);
        { assert (a + b)[1..] == a[1..] + b; }
        first + Digits(a[1..] + b);
        { DigitsConcat(a[1..], b); }
        first + (Digits(a[1..]) + Digits(b));
        (first + Digits(a[1..])) + Digits(b);
        Digits(a) + Digits(b);
      }
    }
  }

  lemma {:induction false} DigitsOfDigits(d: string)
    requires AllDigits(d)
    ensures Digits(d) == d
    decreases |d|
  {
    if d != [] {
      DigitsOfDigits(d[1..]);
      assert [d[0]] + d[1..] == d;
    }
  }

  lemma DigitsOfSeparator(c: char)
    requires !IsDigit(c)
    ensures Digits([c]) == []
  {
    assert [c][1..] == [];
  }

  /** A leading group no wider than k, closed by a non-digit, can hold no
      run of k + 1 digits: the step passes over it. */
  lemma {:induction false} ReplaceFirstSkipsGroup(g: string, c: char, rest: string, k: nat, sep: char)
    requires |g| <= k && !IsDigit(c)
    ensures ReplaceFirst(g + [c] + rest, k, sep) == g + [c] + ReplaceFirst(rest, k, sep)
    decreases |g|
  {
    var s := g + [c] + rest;
    if |s| <= k {
      assert |rest| <= k;
    } else {
      assert s[|g|] == c;
      NoRunAcross(s, |g|, k + 1);
      if g == [] {
        assert s[1..] == rest;
      } else {
        calc {
          ReplaceFirst(s, k, sep);
          [s[0]] + ReplaceFirst(s[1..], k, sep);
          { assert s[1..] == g[1..] + [c] + rest; }
          [g[0]] + ReplaceFirst(g[1..] + [c] + rest, k, sep);
          { ReplaceFirstSkipsGroup(g[1..], c, rest, k, sep); }
          [g[0]] + (g[1..] + [c] + ReplaceFirst(rest, k, sep));
          { assert [g[0]] + g[1..] == g; }
          g + [c] + ReplaceFirst(rest, k, sep);
        }
      }
    }
  }

  /** A non-digit at position j breaks every run through it. */
  lemma NoRunAcross(s: string, j: nat, n: nat)
    requires j < n <= |s| && !IsDigit(s[j])
    ensures !AllDigits(s[..n])
  {
    assert s[..n][j] == s[j];
  }


  /** On a digit string, a step cuts the first k digits off when more follow. */
  lemma ReplaceFirstOnDigits(d: string, k: nat, sep: char)
    requires AllDigits(d)
    ensures ReplaceFirst(d, k, sep) == if |d| > k then d[..k] + [sep] + d[k..] else d
  {
    if |d| > k {
      assert AllDigits(d[..k + 1]);
    }
  }

  /** The key step: applying `ReplaceFirst` to a value already punctuated with
      groups no wider than k adds exactly the next group of the layout. */
  lemma {:induction false} ReplaceFirstExtends(d: string, cuts: seq<Cut>, k: nat, sep: char)
    requires AllDigits(d) && SeparatorsOnly(cuts) && WidthsAtMost(cuts, k)
    ensures ReplaceFirst(Punctuate(d, cuts), k, sep) == Punctuate(d, cuts + [Cut(k, sep)])
    decreases |cuts|
  {
    var next := cuts + [Cut(k, sep)];
    if cuts == [] {
      ReplaceFirstOnDigits(d, k, sep);
      assert next == [Cut(k, sep)];
    } else {
      var w := cuts[0].width;
      assert next[0] == cuts[0] && next[1..] == cuts[1..] + [Cut(k, sep)];
      if |d| <= w {
        ReplaceFirstOnDigits(d, k, sep);
      } else {
        var tail := d[w..];
        assert SeparatorsOnly(cuts[1..]) && WidthsAtMost(cuts[1..], k) by {
          forall i | 0 <= i < |cuts[1..]|
            ensures !IsDigit(cuts[1..][i].sep) && cuts[1..][i].width <= k
          {
            assert cuts[1..][i] == cuts[i + 1];
          }
        }
        assert AllDigits(tail);
        ReplaceFirstSkipsGroup(d[..w], cuts[0].sep, Punctuate(tail, cuts[1..]), k, sep);
        ReplaceFirstExtends(tail, cuts[1..], k, sep);
      }
    }
  }

  /** A group of digits and a separator contribute exactly the group's digits. */
  lemma DigitsOfGroup(head: string, sep: char, tail: string)
    requires AllDigits(head) && !IsDigit(sep)
    ensures Digits(head + [sep] + tail) == head + Digits(tail)
  {
    calc {
      Digits(head + [sep] + tail);
      { DigitsConcat(head + [sep], tail); }
      Digits(head + [sep]) + Digits(tail);
      { DigitsConcat(head, [sep]); DigitsOfDigits(head); DigitsOfSeparator(sep); }
      head + [] + Digits(tail);
      { assert head + [] == head; }
      head + Digits(tail);
    }
  }

  /** Punctuation never adds, drops or reorders a digit. */
  lemma {:induction false} DigitsOfPunctuate(d: string, cuts: seq<Cut>)
    requires AllDigits(d) && SeparatorsOnly(cuts)
    ensures Digits(Punctuate(d, cuts)) == d
    decreases |cuts|
  {
    if cuts == [] || |d| <= cuts[0].width {
      DigitsOfDigits(d);
    } else {
      var w := cuts[0].width;
      var head, tail := d[..w], Punctuate(d[w..], cuts[1..]);
      SeparatorsOnlyTail(cuts);
      AllDigitsSplit(d, w);
      calc {
        Digits(Punctuate(d, cuts));
        Digits(head + [cuts[0].sep] + tail);
        { DigitsOfGroup(head, cuts[0].sep, tail); }
        head + Digits(tail);
        { DigitsOfPunctuate(d[w..], cuts[1..]); }
        head + d[w..];
        d;
      }
    }
  }

  lemma SeparatorsOnlyTail(cuts: seq<Cut>)
    requires cuts != [] && SeparatorsOnly(cuts)
    ensures SeparatorsOnly(cuts[1..])
  {
    forall i | 0 <= i < |cuts[1..]| ensures !IsDigit(cuts[1..][i].sep) {
      assert cuts[1..][i] == cuts[i + 1];
    }
  }

  lemma AllDigitsSplit(d: string, w: nat)
    requires AllDigits(d) && w <= |d|
    ensures AllDigits(d[..w]) && AllDigits(d[w..])
  {
  }


  // ---------------------------------------------------------------------------
  // Properties of the masks

  /** The four CNPJ steps of the source, on a digit string, lay out the CNPJ groups. */
  lemma CnpjSteps(d: string)
    requires AllDigits(d)
    ensures ReplaceFirst(ReplaceFirst(ReplaceFirst(ReplaceFirst(d, 2, '.'), 3, '.'), 3, '/'), 4, '-')
            == Punctuate(d, CNPJ_CUTS)
  {
    var c1, c2, c3 := [Cut(2, '.')], [Cut(2, '.'), Cut(3, '.')], [Cut(2, '.'), Cut(3, '.'), Cut(3, '/')];
    assert [] + [Cut(2, '.')] == c1 && c1 + [Cut(3, '.')] == c2 && c2 + [Cut(3, '/')] == c3;
    assert c3 + [Cut(4, '-')] == CNPJ_CUTS;
    assert Punctuate(d, []) == d;
    ReplaceFirstExtends(d, [], 2, '.');
    var v1 := ReplaceFirst(d, 2, '.');
    assert v1 == Punctuate(d, c1);
    assert SeparatorsOnly(c1) && WidthsAtMost(c1, 3);
    ReplaceFirstExtends(d, c1, 3, '.');
    var v2 := ReplaceFirst(v1, 3, '.');
    assert v2 == Punctuate(d, c2);
    assert SeparatorsOnly(c2) && WidthsAtMost(c2, 3);
    ReplaceFirstExtends(d, c2, 3, '/');
    var v3 := ReplaceFirst(v2, 3, '/');
    assert v3 == Punctuate(d, c3);
    assert SeparatorsOnly(c3) && WidthsAtMost(c3, 4);
    ReplaceFirstExtends(d, c3, 4, '-');
  }

  /** The three CPF steps of the source, on a digit string, lay out the CPF groups. */
  lemma CpfSteps(d: string)
    requires AllDigits(d)
    ensures ReplaceFirst(ReplaceFirst(ReplaceFirst(d, 3, '.'), 3, '.'), 3, '-') == Punctuate(d, CPF_CUTS)
  {
    var c1, c2 := [Cut(3, '.')], [Cut(3, '.'), Cut(3, '.')];
    assert [] + [Cut(3, '.')] == c1 && c1 + [Cut(3, '.')] == c2 && c2 + [Cut(3, '-')] == CPF_CUTS;
    assert Punctuate(d, []) == d;
    ReplaceFirstExtends(d, [], 3, '.');
    var v1 := ReplaceFirst(d, 3, '.');
    assert v1 == Punctuate(d, c1);
    assert SeparatorsOnly(c1) && WidthsAtMost(c1, 3);
    ReplaceFirstExtends(d, c1, 3, '.');
    var v2 := ReplaceFirst(v1, 3, '.');
    assert v2 == Punctuate(d, c2);
    assert SeparatorsOnly(c2) && WidthsAtMost(c2, 3);
    ReplaceFirstExtends(d, c2, 3, '-');
  }

  /** Deleting the separators from the mask's output gives back the input's
      digits, less the last one when there were more than 14. */
  lemma CpfCnpjKeepsDigits(value: string)
    ensures Digits(CpfCnpj(value)) ==
            if |Digits(value)| > 14 then Digits(value)[..|Digits(value)| - 1] else Digits(value)
  {
    var d := Cap(Digits(value), CPF_CNPJ_CAP);
    DigitsOfPunctuate(d, if |d| > 11 then CNPJ_CUTS else CPF_CUTS);
  }

  lemma CepKeepsDigits(value: string)
    ensures Digits(Cep(value)) ==
            if |Digits(value)| > 8 then Digits(value)[..|Digits(value)| - 1] else Digits(value)
  {
    DigitsOfPunctuate(Cap(Digits(value), CEP_CAP), CEP_CUTS);
  }

  /** The cap drops one digit at most: up to 15 digits in, at most 14 out. */
  lemma CpfCnpjCap(value: string)
    ensures |Digits(CpfCnpj(value))| == if |Digits(value)| > 14 then |Digits(value)| - 1 else |Digits(value)|
    ensures |Digits(value)| <= 15 ==> |Digits(CpfCnpj(value))| <= 14
  {
    CpfCnpjKeepsDigits(value);
  }

  lemma CepCap(value: string)
    ensures |Digits(Cep(value))| == if |Digits(value)| > 8 then |Digits(value)| - 1 else |Digits(value)|
    ensures |Digits(value)| <= 9 ==> |Digits(Cep(value))| <= 8
  {
    CepKeepsDigits(value);
  }

  lemma FitsAppend(a: string, p: string, b: string, q: string)
    requires Fits(a, p) && Fits(b, q)
    ensures Fits(a + b, p + q)
  {
    forall i | 0 <= i < |a + b|
      ensures if (p + q)[i] == 'D' then IsDigit((a + b)[i]) else (a + b)[i] == (p + q)[i]
    {
      if i >= |a| {
        assert (a + b)[i] == b[i - |a|] && (p + q)[i] == q[i - |a|];
      }
    }
  }

  /** A group of digits followed by a separator and the rest of a layout. */
  lemma FitsGroup(g: string, p: string, c: char, rest: string, q: string)
    requires AllDigits(g) && |g| == |p| && (forall i :: 0 <= i < |p| ==> p[i] == 'D')
    requires c != 'D' && Fits(rest, q)
    ensures Fits(g + [c] + rest, p + [c] + q)
  {
    assert Fits(g, p);
    assert Fits([c], [c]);
    FitsAppend(g, p, [c], [c]);
    FitsAppend(g + [c], p + [c], rest, q);
  }

  /** The last two CNPJ groups: nine digits give `DDD/DDDD-DD`. */
  lemma CnpjTailShape(t: string)
    requires AllDigits(t) && |t| == 9
    ensures Fits(Punctuate(t, [Cut(3, '/'), Cut(4, '-')]), "DDD/DDDD-DD")
  {
    var u := t[3..];
    assert [Cut(3, '/'), Cut(4, '-')][1..] == [Cut(4, '-')];
    var r := u[..4] + ['-'] + u[4..];
    assert Punctuate(u, [Cut(4, '-')]) == r;
    assert Punctuate(t, [Cut(3, '/'), Cut(4, '-')]) == t[..3] + ['/'] + r;
    assert Fits(u[4..], "DD");
    FitsGroup(u[..4], "DDDD", '-', u[4..], "DD");
    assert "DDDD" + ['-'] + "DD" == "DDDD-DD";
    FitsGroup(t[..3], "DDD", '/', r, "DDDD-DD");
    assert "DDD" + ['/'] + "DDDD-DD" == "DDD/DDDD-DD";
  }

  /** The last three CNPJ groups: twelve digits give `DDD.DDD/DDDD-DD`. */
  lemma CnpjMiddleShape(t: string)
    requires AllDigits(t) && |t| == 12
    ensures Fits(Punctuate(t, [Cut(3, '.'), Cut(3, '/'), Cut(4, '-')]), "DDD.DDD/DDDD-DD")
  {
    var c := [Cut(3, '.'), Cut(3, '/'), Cut(4, '-')];
    var r := Punctuate(t[3..], c[1..]);
    assert c[1..] == [Cut(3, '/'), Cut(4, '-')];
    assert Punctuate(t, c) == t[..3] + ['.'] + r;
    CnpjTailShape(t[3..]);
    FitsGroup(t[..3], "DDD", '.', r, "DDD/DDDD-DD");
    assert "DDD" + ['.'] + "DDD/DDDD-DD" == "DDD.DDD/DDDD-DD";
  }

  /** The CNPJ layout of fourteen digits is `DD.DDD.DDD/DDDD-DD`. */
  lemma CnpjLayoutShape(d: string)
    requires AllDigits(d) && |d| == 14
    ensures Fits(Punctuate(d, CNPJ_CUTS), "DD.DDD.DDD/DDDD-DD")
  {
    var r := Punctuate(d[2..], CNPJ_CUTS[1..]);
    assert CNPJ_CUTS[1..] == [Cut(3, '.'), Cut(3, '/'), Cut(4, '-')];
    assert Punctuate(d, CNPJ_CUTS) == d[..2] + ['.'] + r;
    CnpjMiddleShape(d[2..]);
    FitsGroup(d[..2], "DD", '.', r, "DDD.DDD/DDDD-DD");
    assert "DD" + ['.'] + "DDD.DDD/DDDD-DD" == "DD.DDD.DDD/DDDD-DD";
  }


  /** Fourteen digits give `DD.DDD.DDD/DDDD-DD`. */
  lemma CnpjShape(value: string)
    requires |Digits(value)| == 14
    ensures Fits(CpfCnpj(value), "DD.DDD.DDD/DDDD-DD")
  {
    CnpjLayoutShape(Digits(value));
  }

  /** The CPF layout of eleven digits is `DDD.DDD.DDD-DD`. */
  lemma CpfLayoutShape(d: string)
    requires AllDigits(d) && |d| == 11
    ensures Fits(Punctuate(d, CPF_CUTS), "DDD.DDD.DDD-DD")
  {
    var t1, t2 := d[3..], d[6..];
    assert t1[3..] == t2;
    var c1, c2 := [Cut(3, '.'), Cut(3, '-')], [Cut(3, '-')];
    assert CPF_CUTS[1..] == c1 && c1[1..] == c2;
    var r2 := t2[..3] + ['-'] + t2[3..];
    assert Punctuate(t2, c2) == r2;
    var r1 := t1[..3] + ['.'] + r2;
    assert Punctuate(t1, c1) == r1;
    assert Punctuate(d, CPF_CUTS) == d[..3] + ['.'] + r1;
    assert Fits(t2[3..], "DD");
    FitsGroup(t2[..3], "DDD", '-', t2[3..], "DD");
    assert "DDD" + ['-'] + "DD" == "DDD-DD";
    FitsGroup(t1[..3], "DDD", '.', r2, "DDD-DD");
    assert "DDD" + ['.'] + "DDD-DD" == "DDD.DDD-DD";
    FitsGroup(d[..3], "DDD", '.', r1, "DDD.DDD-DD");
    assert "DDD" + ['.'] + "DDD.DDD-DD" == "DDD.DDD.DDD-DD";
  }

  /** Eleven digits give `DDD.DDD.DDD-DD`. */
  lemma CpfShape(value: string)
    requires |Digits(value)| == 11
    ensures Fits(CpfCnpj(value), "DDD.DDD.DDD-DD")
  {
    CpfLayoutShape(Digits(value));
  }

  /** `Mask.cep` writes one `-`, after the fifth digit, exactly when at least
      six digits are kept. */
  lemma CepDash(value: string)
    ensures var d := Cap(Digits(value), CEP_CAP);
            Cep(value) == if |d| >= 6 then d[..5] + ['-'] + d[5..] else d
    ensures ('-' in Cep(value)) <==> |Cap(Digits(value), CEP_CAP)| >= 6
  {
    var d := Cap(Digits(value), CEP_CAP);
    if |d| >= 6 {
      assert (d[..5] + ['-'] + d[5..])[5] == '-';
    } else {
      assert AllDigits(d);
    }
  }

  /** Eight digits give `DDDDD-DDD`. */
  lemma CepShape(value: string)
    requires |Digits(value)| == 8
    ensures Fits(Cep(value), "DDDDD-DDD")
  {
    var d := Digits(value);
    CepDash(value);
    assert Fits(d[5..], "DDD");
    FitsGroup(d[..5], "DDDDD", '-', d[5..], "DDD");
    assert "DDDDD" + ['-'] + "DDD" == "DDDDD-DDD";
  }

  /** Masking a masked value changes nothing while the digits fit the cap. */
  lemma CpfCnpjIdempotent(value: string)
    requires |Digits(value)| <= 15
    ensures CpfCnpj(CpfCnpj(value)) == CpfCnpj(value)
  {
    var d := Cap(Digits(value), CPF_CNPJ_CAP);
    CpfCnpjKeepsDigits(value);
    assert Digits(CpfCnpj(value)) == d;
  }

  lemma CepIdempotent(value: string)
    requires |Digits(value)| <= 9
    ensures Cep(Cep(value)) == Cep(value)
  {
    CepKeepsDigits(value);
  }
}
