/** How a session folds extra parse options into the flags that key its cache, and takes them
    out again before parsing. */
module ParseOptions {
  import opened Basics

  const PREFIX := "__options="

  function Digit(d: nat): char
    requires d < 10
  {
    ('0' as int + d) as char
  }

  predicate IsDigit(c: char) {
    '0' <= c <= '9'
  }

  function Decimal(n: nat): string {
    if n < 10 then [Digit(n)] else Decimal(n / 10) + [Digit(n % 10)]
  }

  function Render(i: int): string {
    if i < 0 then "-" + Decimal(-i) else Decimal(i)
  }

  /** The flag added for options. */
  function MarkerOf(options: int): string {
    PREFIX + Render(options)
  }

  /** The flags that key the cache. */
  function Effective(flags: seq<string>, options: int): seq<string> {
    if options == 0 then flags else flags + [MarkerOf(options)]
  }

  predicate Marked(flag: string) {
    PREFIX <= flag
  }

  /** The flags the parser is called with. */
  function Strip(flags: seq<string>): seq<string> {
    if flags == [] then [] else (if Marked(flags[0]) then [] else [flags[0]]) + Strip(flags[1..])
  }

  predicate Clean(flags: seq<string>) {
    forall flag :: flag in flags ==> !Marked(flag)
  }

  lemma {:induction false} StripConcat(a: seq<string>, b: seq<string>)
    ensures Strip(a + b) == Strip(a) + Strip(b)
  {
    if a == [] {
      assert a + b == b;
    } else {
      assert (a + b)[1..] == a[1..] + b;
      StripConcat(a[1..], b);
      Associate(if Marked(a[0]) then [] else [a[0]], Strip(a[1..]), Strip(b));
    }
  }

  lemma {:induction false} StripClean(flags: seq<string>)
    ensures |Strip(flags)| <= |flags|
    ensures Strip(flags) == flags <==> Clean(flags)
    ensures !Clean(flags) ==> |Strip(flags)| < |flags|
  {
    if flags != [] {
      StripClean(flags[1..]);
      assert flags == [flags[0]] + flags[1..];
      assert Clean(flags) <==> !Marked(flags[0]) && Clean(flags[1..]);
    }
  }

  /** The parser gets the caller's flags back exactly when none of them looks like a marker. */
  lemma {:induction false} StripUndoesEffective(flags: seq<string>, options: int)
    ensures Strip(Effective(flags, options)) == flags <==> Clean(flags)
    ensures Strip(Effective(flags, options)) == Strip(flags)
  {
    StripClean(flags);
    if options != 0 {
      var marker := MarkerOf(options);
      StripConcat(flags, [marker]);
      assert Strip([marker]) == [] by {
        assert Marked(marker) && [marker][1..] == [];
      }
    }
  }

  // ------------------------------------------------------------------
  // The text of the options
  // ------------------------------------------------------------------

  /** Digits without a leading zero. */
  predicate IsNumeral(s: string) {
    s != [] && s[0] != '0' && forall i :: 0 <= i < |s| ==> IsDigit(s[i])
  }

  lemma {:induction false} DecimalIsNumeral(n: nat)
    requires 0 < n
    ensures IsNumeral(Decimal(n))
  {
    if n >= 10 {
      DecimalIsNumeral(n / 10);
    }
  }

  /** Every numeral is the text of just one positive number. */
  lemma {:induction false} NumeralIsDecimal(s: string) returns (n: nat)
    requires IsNumeral(s)
    ensures 0 < n && Decimal(n) == s
  {
    var k := |s| - 1;
    assert IsDigit(s[k]);
    var d := s[k] as int - '0' as int;
    if k == 0 {
      n := d;
    } else {
      var m := NumeralIsDecimal(s[..k]);
      n := 10 * m + d;
      assert n / 10 == m && n % 10 == d;
      assert s == s[..k] + [s[k]];
    }
  }

  lemma {:induction false} DecimalInjective(m: nat, n: nat)
    requires Decimal(m) == Decimal(n)
    ensures m == n
  {
    var a, b := Decimal(m), Decimal(n);
    assert a[|a| - 1] == Digit(m % 10) && b[|b| - 1] == Digit(n % 10);
    DecimalLength(m);
    DecimalLength(n);
    if m >= 10 {
      assert a[..|a| - 1] == Decimal(m / 10) && b[..|b| - 1] == Decimal(n / 10);
      DecimalInjective(m / 10, n / 10);
    }
  }

  lemma {:induction false} DecimalLength(n: nat)
    ensures |Decimal(n)| >= 1 && (|Decimal(n)| == 1 <==> n < 10)
  {
    if n >= 10 {
      DecimalLength(n / 10);
    }
  }

  /** The texts of integers other than 0. */
  predicate IsRendering(s: string) {
    IsNumeral(s) || (s != [] && s[0] == '-' && IsNumeral(s[1..]))
  }

  lemma {:induction false} RenderIsRendering(i: int)
    requires i != 0
    ensures IsRendering(Render(i))
    ensures Render(i)[0] == '-' <==> i < 0
  {
    if i < 0 {
      DecimalIsNumeral(-i);
      assert Render(i)[1..] == Decimal(-i);
    } else {
      DecimalIsNumeral(i);
    }
  }

  lemma {:induction false} RenderInjective(i: int, j: int)
    requires i != 0 && j != 0
    requires Render(i) == Render(j)
    ensures i == j
  {
    hide Decimal, IsRendering;
    RenderIsRendering(i);
    RenderIsRendering(j);
    if i < 0 {
      assert Render(i)[1..] == Decimal(-i) && Render(j)[1..] == Decimal(-j);
      DecimalInjective(-i, -j);
    } else {
      DecimalInjective(i, j);
    }
  }

  // ------------------------------------------------------------------
  // Which requests share a key
  // ------------------------------------------------------------------

  /** A flag that a session adds for some options; others that start like it are not. */
  predicate IsMarkerOfSome(flag: string) {
    PREFIX <= flag && IsRendering(flag[|PREFIX|..])
  }

  lemma {:induction false} MarkerText(options: int)
    requires options != 0
    ensures IsMarkerOfSome(MarkerOf(options))
    ensures MarkerOf(options)[|PREFIX|..] == Render(options)
  {
    RenderIsRendering(options);
    assert MarkerOf(options)[|PREFIX|..] == Render(options);
  }

  lemma {:induction false} MarkerHasOptions(flag: string) returns (options: int)
    requires IsMarkerOfSome(flag)
    ensures options != 0 && MarkerOf(options) == flag
  {
    var text := flag[|PREFIX|..];
    assert flag == PREFIX + text;
    if IsNumeral(text) {
      options := NumeralIsDecimal(text);
    } else {
      var n: nat := NumeralIsDecimal(text[1..]);
      options := 0 - n;
      assert text == "-" + text[1..];
    }
  }

  /** Flags without options that pass for others with options. */
  predicate PassesFor(flags: seq<string>, flags': seq<string>, options': int) {
    options' != 0 && flags == flags' + [MarkerOf(options')]
  }

  /** Two requests share a key exactly when they are the same, or one has no options and has the
      other's marker after the other's flags. */
  lemma {:induction false} SharedKey(flags: seq<string>, options: int, flags': seq<string>, options': int)
    ensures Effective(flags, options) == Effective(flags', options')
       <==> || (flags == flags' && options == options')
            || (options == 0 && PassesFor(flags, flags', options'))
            || (options' == 0 && PassesFor(flags', flags, options))
  {
    hide Render;
    if Effective(flags, options) == Effective(flags', options') && options != 0 && options' != 0 {
      var e := Effective(flags, options);
      assert e[|e| - 1] == MarkerOf(options) && e[|e| - 1] == MarkerOf(options');
      assert e[..|e| - 1] == flags && e[..|e| - 1] == flags';
      MarkerText(options);
      MarkerText(options');
      RenderInjective(options, options');
    }
  }

  /** Entries with different options are meant for separate slots. A request shares its slot with
      one of other options exactly if it has options itself, or its last flag is a marker. */
  lemma {:induction false} SlotIsShared(flags: seq<string>, options: int)
    ensures (exists flags', options' :: options' != options && Effective(flags', options') == Effective(flags, options))
       <==> options != 0 || (flags != [] && IsMarkerOfSome(flags[|flags| - 1]))
  {
    hide Render, IsRendering;
    if options != 0 {
      assert Effective(flags + [MarkerOf(options)], 0) == Effective(flags, options);
    } else if flags != [] && IsMarkerOfSome(flags[|flags| - 1]) {
      var options' := MarkerHasOptions(flags[|flags| - 1]);
      assert Effective(flags[..|flags| - 1], options') == Effective(flags, options);
    }
    forall flags', options' | options' != options && Effective(flags', options') == Effective(flags, options)
      ensures options != 0 || (flags != [] && IsMarkerOfSome(flags[|flags| - 1]))
    {
      SharedKey(flags, options, flags', options');
      if options == 0 {
        MarkerText(options');
      }
    }
  }

  lemma PassingIsMarked(flags: seq<string>, flags': seq<string>, options': int)
    ensures PassesFor(flags, flags', options') ==> !Clean(flags)
  {
    assert flags == flags' + [MarkerOf(options')] ==> MarkerOf(options') in flags;
  }

  /** Requests without marker flags that share a key are the same request. */
  lemma {:induction false} EffectiveInjective(flags: seq<string>, options: int, flags': seq<string>, options': int)
    requires Clean(flags) && Clean(flags')
    ensures Effective(flags, options) == Effective(flags', options') <==> flags == flags' && options == options'
  {
    hide Render;
    SharedKey(flags, options, flags', options');
    PassingIsMarked(flags, flags', options');
    PassingIsMarked(flags', flags, options);
  }

  /** A caller's own marker shares a cache slot with another caller's parse options. */
  lemma MarkersCollide()
    ensures Effective(["__options=1"], 0) == Effective([], 1)
    ensures Strip(Effective(["__options=1"], 0)) == []
  {
    assert Render(1) == "1";
    assert PREFIX + "1" == "__options=1";
    assert Marked("__options=1") && ["__options=1"][1..] == [];
  }
}
