/** Browsing-region identifiers and the group names made from them. */
module BrowsingRegions {
  import opened Results

  predicate IsUpper(c: char) { 'A' <= c <= 'Z' }

  /** The pattern `^[A-Z][A-Z0-9_]*$`. */
  predicate IsRegion(code: string) {
    code != "" && IsUpper(code[0]) && forall c :: c in code ==> IsUpper(c) || '0' <= c <= '9' || c == '_'
  }

  const PROVIDER_PREFIX := "cr_browsing_"
  const DISPLAY_PREFIX := "网页 · "

  /** Regions with a label of their own, in declaration order. */
  const LABELLED: seq<(string, string)> :=
    [("US", "美国"), ("SG", "新加坡"), ("JP", "日本"), ("TW", "台湾"), ("KR", "韩国"), ("HK", "香港"), ("UK", "英国"), ("OTHER", "其他地区")]

  function LabelIn(table: seq<(string, string)>, code: string): string {
    if table == [] then code else if table[0].0 == code then table[0].1 else LabelIn(table[1..], code)
  }

  function RegionIn(table: seq<(string, string)>, label_: string): Option<string> {
    if table == [] then None else if table[0].1 == label_ then Some(table[0].0) else RegionIn(table[1..], label_)
  }

  function Display(code: string): string { DISPLAY_PREFIX + LabelIn(LABELLED, code) }

  function Stable(code: string): string { "__CR_BROWSING_" + code + "_STABLE_AUTO" }

  function Reserve(code: string): string { "__CR_BROWSING_" + code + "_RESERVE_AUTO" }

  function Scaffold(code: string): string { "__CR_AUTO_BROWSING_" + code }

  /** What disappears with a region. */
  function RegionGroups(code: string): set<string> { {Display(code), Stable(code), Reserve(code), Scaffold(code)} }

  /** `upper` stands for Python's `str.upper`. */
  function ProviderRegion(name: string, upper: string -> string): (r: Option<string>)
    ensures r.Some? ==> IsRegion(r.value)
  {
    if PROVIDER_PREFIX <= name && name != PROVIDER_PREFIX && IsRegion(upper(name[|PROVIDER_PREFIX|..])) then Some(upper(name[|PROVIDER_PREFIX|..]))
    else None
  }

  /** A label first, then a bare code; `fold` stands for strip and upper. */
  function RegionFromDisplay(name: string, fold: string -> string): Option<string> {
    if !(DISPLAY_PREFIX <= name) then None
    else
      var suffix := name[|DISPLAY_PREFIX|..];
      var known := RegionIn(LABELLED, suffix);
      if known.Some? then known
      else if IsRegion(fold(suffix)) then Some(fold(suffix))
      else None
  }

  /** Stripping and upper-casing leave a region code alone. */
  ghost predicate KeepsRegions(fold: string -> string) { forall code :: IsRegion(code) ==> fold(code) == code }

  // ----- the tables -----

  /** Codes are regions, labels are not, and no code or label occurs twice. */
  ghost predicate GoodTable(table: seq<(string, string)>) {
    && (forall i :: 0 <= i < |table| ==> IsRegion(table[i].0) && table[i].1 != "" && table[i].1[0] > 'Z')
    && (forall i, j :: 0 <= i < j < |table| ==> table[i].0 != table[j].0 && table[i].1 != table[j].1)
  }

  lemma CodesAreRegions()
    ensures forall i :: 0 <= i < |LABELLED| ==> IsRegion(LABELLED[i].0) && LABELLED[i].1 != "" && LABELLED[i].1[0] > 'Z'
  {
  }

  lemma LabelledIsGood()
    ensures GoodTable(LABELLED)
  {
    var t := LABELLED;
    CodesAreRegions();
    assert t[0].1[0] == '美' && t[1].1[0] == '新' && t[2].1[0] == '日' && t[3].1[0] == '台';
    assert t[4].1[0] == '韩' && t[5].1[0] == '香' && t[6].1[0] == '英' && t[7].1[0] == '其';
    assert t[0].0[0] == 'U' && t[1].0[0] == 'S' && t[2].0[0] == 'J' && t[3].0[0] == 'T';
    assert t[4].0[0] == 'K' && t[5].0[0] == 'H' && t[6].0[0] == 'U' && t[7].0[0] == 'O';
    assert t[0].0[1] == 'S' && t[6].0[1] == 'K';
  }

  /** A label leads back to its code, and is never mistaken for another code. */
  lemma {:induction false} LabelLeadsBack(table: seq<(string, string)>, code: string)
    requires GoodTable(table) && IsRegion(code)
    ensures var l := LabelIn(table, code); if l == code then RegionIn(table, l).None? else RegionIn(table, l) == Some(code)
    ensures LabelIn(table, code) == code || LabelIn(table, code) in Labels(table)
  {
    if table != [] {
      assert table == [table[0]] + table[1..];
      if table[0].0 != code {
        LabelLeadsBack(table[1..], code);
        if LabelIn(table[1..], code) != code { assert LabelIn(table[1..], code) != table[0].1; }
      }
    }
  }

  function Labels(table: seq<(string, string)>): set<string> { set t | t in table :: t.1 }

  /** The display name of a region leads back to it. */
  lemma DisplayRoundTrip(code: string, fold: string -> string)
    requires IsRegion(code) && KeepsRegions(fold)
    ensures RegionFromDisplay(Display(code), fold) == Some(code)
  {
    LabelledIsGood();
    LabelLeadsBack(LABELLED, code);
    Suffix(DISPLAY_PREFIX, LabelIn(LABELLED, code));
  }

  lemma Suffix(a: string, b: string)
    ensures a <= a + b && (a + b)[|a|..] == b
  {
  }

  lemma DisplayInjective(a: string, b: string)
    requires IsRegion(a) && IsRegion(b) && Display(a) == Display(b)
    ensures a == b
  {
    LabelledIsGood();
    LabelLeadsBack(LABELLED, a);
    LabelLeadsBack(LABELLED, b);
    Suffix(DISPLAY_PREFIX, LabelIn(LABELLED, a));
    Suffix(DISPLAY_PREFIX, LabelIn(LABELLED, b));
  }

  // ----- names apart -----

  lemma Cancel(a: string, x: string, y: string, b: string)
    requires a + x + b == a + y + b
    ensures x == y
  {
    assert |x| == |y|;
    assert (a + x + b)[|a|..|a| + |x|] == x && (a + y + b)[|a|..|a| + |y|] == y;
  }

  /** Texts that differ at a place inside their common heads differ. */
  lemma Diverge(a: string, x: string, b: string, y: string, i: nat)
    requires i < |a| && i < |b| && a[i] != b[i]
    ensures a + x != b + y
  {
    assert (a + x)[i] == a[i] && (b + y)[i] == b[i];
  }

  /** Texts that differ at a place counted from the end differ. */
  lemma DivergeBack(x: string, a: string, y: string, b: string, i: nat)
    requires i < |a| && i < |b| && a[|a| - 1 - i] != b[|b| - 1 - i]
    ensures x + a != y + b
  {
    assert (x + a)[|x + a| - 1 - i] == a[|a| - 1 - i] && (y + b)[|y + b| - 1 - i] == b[|b| - 1 - i];
  }

  lemma StableNotReserve(a: string, b: string)
    ensures Stable(a) != Reserve(b)
  {
    DivergeBack("__CR_BROWSING_" + a, "_STABLE_AUTO", "__CR_BROWSING_" + b, "_RESERVE_AUTO", 6);
  }

  lemma TierNotScaffold(a: string, b: string)
    ensures Stable(a) != Scaffold(b) && Reserve(a) != Scaffold(b)
  {
    Diverge("__CR_BROWSING_", a + "_STABLE_AUTO", "__CR_AUTO_BROWSING_", b, 5);
    Diverge("__CR_BROWSING_", a + "_RESERVE_AUTO", "__CR_AUTO_BROWSING_", b, 5);
    assert Stable(a) == "__CR_BROWSING_" + (a + "_STABLE_AUTO") && Reserve(a) == "__CR_BROWSING_" + (a + "_RESERVE_AUTO");
  }

  /** A display name and an internal name differ in their first character. */
  lemma DisplayNotInternal(a: string, b: string)
    ensures Display(a) != Stable(b) && Display(a) != Reserve(b) && Display(a) != Scaffold(b)
  {
    assert Display(a)[0] == '网' && Stable(b)[0] == '_' && Reserve(b)[0] == '_' && Scaffold(b)[0] == '_';
  }

  lemma SameKind(a: string, b: string)
    ensures Stable(a) == Stable(b) ==> a == b
    ensures Reserve(a) == Reserve(b) ==> a == b
    ensures Scaffold(a) == Scaffold(b) ==> a == b
  {
    if Stable(a) == Stable(b) { Cancel("__CR_BROWSING_", a, b, "_STABLE_AUTO"); }
    if Reserve(a) == Reserve(b) { Cancel("__CR_BROWSING_", a, b, "_RESERVE_AUTO"); }
    if Scaffold(a) == Scaffold(b) { Suffix("__CR_AUTO_BROWSING_", a); Suffix("__CR_AUTO_BROWSING_", b); }
  }

  /** Removing one region touches no name of another. */
  lemma RegionGroupsApart(a: string, b: string)
    requires IsRegion(a) && IsRegion(b) && a != b
    ensures RegionGroups(a) !! RegionGroups(b)
  {
    if Display(a) == Display(b) { DisplayInjective(a, b); }
    SameKind(a, b);
    StableNotReserve(a, b);
    StableNotReserve(b, a);
    TierNotScaffold(a, b);
    TierNotScaffold(b, a);
    DisplayNotInternal(a, b);
    DisplayNotInternal(b, a);
  }

  // ----- the two readings, spelled out -----

  /** A provider belongs to the region that follows its prefix, in upper case. */
  lemma ProviderExactly(name: string, upper: string -> string, region: string)
    ensures ProviderRegion(name, upper) == Some(region)
            <==> exists suffix :: suffix != "" && name == "cr_browsing_" + suffix && region == upper(suffix) && IsRegion(region)
  {
    assert PROVIDER_PREFIX == "cr_browsing_";
    if ProviderRegion(name, upper) == Some(region) { assert name == "cr_browsing_" + name[|PROVIDER_PREFIX|..]; }
    forall suffix | name == "cr_browsing_" + suffix ensures name[|PROVIDER_PREFIX|..] == suffix {}
  }

  lemma {:induction false} LabelExactly(table: seq<(string, string)>, text: string, region: string)
    requires GoodTable(table)
    ensures RegionIn(table, text) == Some(region) <==> (region, text) in table
  {
    if table != [] {
      assert table == [table[0]] + table[1..];
      LabelExactly(table[1..], text, region);
      forall j | 1 <= j < |table| ensures table[j].1 != table[0].1 {}
    }
  }

  /** A display name is read by its label, or else by its folded code. */
  lemma DisplayExactly(name: string, fold: string -> string, region: string)
    ensures RegionFromDisplay(name, fold) == Some(region)
            <==> exists text :: name == "网页 · " + text
                   && ((region, text) in LABELLED || ((forall l :: l in LABELLED ==> l.1 != text) && region == fold(text) && IsRegion(region)))
  {
    assert DISPLAY_PREFIX == "网页 · ";
    LabelledIsGood();
    forall text | name == "网页 · " + text ensures name[|DISPLAY_PREFIX|..] == text {}
    if DISPLAY_PREFIX <= name {
      var text := name[|DISPLAY_PREFIX|..];
      assert name == "网页 · " + text;
      LabelExactly(LABELLED, text, region);
      if RegionIn(LABELLED, text).Some? { LabelExactly(LABELLED, text, RegionIn(LABELLED, text).value); }
      forall l | l in LABELLED && l.1 == text ensures RegionIn(LABELLED, text).Some? { LabelExactly(LABELLED, text, l.0); }
    }
  }
}
