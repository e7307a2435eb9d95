/**
 * The ToupTek camera's readout modes. The attach builds the mode switch
 * from the camera's capability flags, one item per readout kind the
 * camera offers at each resolution, named "RAW8_i", "RAW16_i" or "RGB_i";
 * an exposure decodes the selected item's name back to a bit depth and a
 * resolution index; connecting selects the item naming the mode the
 * camera is in.
 */
module TouptekModes {
  import opened Bus
  import opened Decimal

  /** The capability flags that decide the modes. */
  datatype Caps = Caps(raw8: bool, raw16: bool, raw14: bool, raw12: bool, raw10: bool, mono: bool)

  /** Any raw depth above 8 bits, all of which are read out as 16 bits. */
  predicate Deep(c: Caps) { c.raw16 || c.raw14 || c.raw12 || c.raw10 }

  datatype ModeKind = Raw8 | Raw16 | Rgb

  /** The pixel size an exposure in the mode transfers. */
  function Bits(k: ModeKind): (b: nat)
    ensures b in {8, 16, 24}
  {
    match k
    case Raw8 => 8
    case Raw16 => 16
    case Rgb => 24
  }

  function Prefix(k: ModeKind): string
  {
    match k
    case Raw8 => "RAW8_"
    case Raw16 => "RAW16_"
    case Rgb => "RGB_"
  }

  /** The item name of a mode at a resolution, as the attach prints it. */
  function ModeName(k: ModeKind, i: nat): string
  {
    Prefix(k) + Digits(i)
  }

  /** The kinds the camera offers at every resolution, in the order the attach adds them. */
  function KindsOf(c: Caps): (ks: seq<ModeKind>)
    ensures Raw8 in ks <==> c.raw8
    ensures Raw16 in ks <==> Deep(c)
    ensures Rgb in ks <==> !c.mono
    ensures |ks| <= 3
    ensures forall a, b :: 0 <= a < b < |ks| ==> ks[a] != ks[b]
  {
    (if c.raw8 then [Raw8] else []) + (if Deep(c) then [Raw16] else []) + (if !c.mono then [Rgb] else [])
  }

  /** The items added for resolution i. */
  function ModesAt(c: Caps, i: nat): (r: seq<string>)
    ensures |r| == |KindsOf(c)|
  {
    seq(|KindsOf(c)|, k requires 0 <= k < |KindsOf(c)| => ModeName(KindsOf(c)[k], i))
  }

  /** Item k of resolution i names the k-th offered kind at that resolution. */
  lemma ModesAtItems(c: Caps, i: nat)
    ensures forall k :: 0 <= k < |ModesAt(c, i)| ==> ModesAt(c, i)[k] == ModeName(KindsOf(c)[k], i)
  {
  }

  /** The mode items for the first n resolutions, in the order the attach adds them. */
  function ModeList(c: Caps, n: nat): seq<string>
  {
    if n == 0 then [] else ModeList(c, n - 1) + ModesAt(c, n - 1)
  }

  // ---------------------------------------------------------------- decoding

  /** What an exposure sets up for a mode: the bit depth and the resolution index. */
  datatype ModeSetting = ModeSetting(bits: nat, index: int)

  /** The text from position k on, empty when the name is shorter. */
  function Tail(s: string, k: nat): string
  {
    if k <= |s| then s[k..] else ""
  }

  /**
   * The exposure branch's reading of a selected item's name: a name
   * starting "RAW8" is 8-bit with its index after five characters, one
   * starting "RAW1" is 16-bit with its index after six, one starting
   * "RGB" is colour with its index after four; any other name sets
   * nothing.
   */
  function DecodeMode(name: string): (r: Option<ModeSetting>)
    ensures r.Some? <==> (|name| >= 3 && name[..3] == "RGB") || (|name| >= 4 && (name[..4] == "RAW8" || name[..4] == "RAW1"))
    ensures r.Some? ==> r.value.bits in {8, 16, 24}
  {
    if |name| >= 4 && name[..4] == "RAW8" then Some(ModeSetting(8, Atoi(Tail(name, 5))))
    else if |name| >= 4 && name[..4] == "RAW1" then Some(ModeSetting(16, Atoi(Tail(name, 6))))
    else if |name| >= 3 && name[..3] == "RGB" then Some(ModeSetting(24, Atoi(Tail(name, 4))))
    else None
  }

  /** Every name the attach builds decodes to its own bit depth and resolution index. */
  lemma DecodeModeName(k: ModeKind, i: nat)
    ensures DecodeMode(ModeName(k, i)) == Some(ModeSetting(Bits(k), i))
  {
    var name := ModeName(k, i);
    IndexOfName(k, i);
    match k
    case Raw8 =>
      assert name[..4] == "RAW8";
    case Raw16 =>
      assert name[..4] == "RAW1";
    case Rgb =>
      assert name[..4] == "RGB_" && name[..3] == "RGB";
  }

  /** The index printed after a mode's prefix reads back as the index. */
  lemma IndexOfName(k: ModeKind, i: nat)
    ensures Atoi(Tail(ModeName(k, i), |Prefix(k)|)) == i
  {
    ScanDigits(i, "");
    assert Digits(i) + "" == Digits(i);
    assert Tail(ModeName(k, i), |Prefix(k)|) == Digits(i);
  }

  /** Different modes have different names. */
  lemma ModeNameInjective(k1: ModeKind, i1: nat, k2: ModeKind, i2: nat)
    ensures ModeName(k1, i1) == ModeName(k2, i2) ==> k1 == k2 && i1 == i2
  {
    DecodeModeName(k1, i1);
    DecodeModeName(k2, i2);
    if ModeName(k1, i1) == ModeName(k2, i2) {
      assert Bits(k1) == Bits(k2);
    }
  }

  // ---------------------------------------------------------------- the list

  /** The list has one item per offered kind and resolution. */
  lemma {:induction false} ModeListLength(c: Caps, n: nat)
    ensures |ModeList(c, n)| == n * |KindsOf(c)|
  {
    if n > 0 {
      ModeListLength(c, n - 1);
      assert |ModeList(c, n)| == (n - 1) * |KindsOf(c)| + |KindsOf(c)|;
    }
  }

  /** The items of one resolution name exactly its offered kinds at that resolution. */
  lemma ModesAtMember(c: Caps, j: nat, k: ModeKind, i: nat)
    ensures ModeName(k, i) in ModesAt(c, j) <==> k in KindsOf(c) && i == j
  {
    var at := ModesAt(c, j);
    if ModeName(k, i) in at {
      var p :| 0 <= p < |at| && at[p] == ModeName(k, i);
      ModeNameInjective(k, i, KindsOf(c)[p], j);
    }
    if k in KindsOf(c) && i == j {
      var p :| 0 <= p < |KindsOf(c)| && KindsOf(c)[p] == k;
      assert at[p] == ModeName(k, i);
    }
  }

  /** A mode is in the list exactly when the camera offers its kind and its resolution is among the first n. */
  lemma ModeListMember(c: Caps, n: nat, k: ModeKind, i: nat)
    ensures ModeName(k, i) in ModeList(c, n) <==> k in KindsOf(c) && i < n
  {
    if ModeName(k, i) in ModeList(c, n) {
      var p :| 0 <= p < |ModeList(c, n)| && ModeList(c, n)[p] == ModeName(k, i);
      ModeListItems(c, n, p);
      var k', i': nat :| k' in KindsOf(c) && i' < n && ModeList(c, n)[p] == ModeName(k', i');
      ModeNameInjective(k, i, k', i');
    }
    if k in KindsOf(c) && i < n {
      ModeListHas(c, n, k, i);
    }
  }

  /** An offered mode at one of the first n resolutions is in the list. */
  lemma {:induction false} ModeListHas(c: Caps, n: nat, k: ModeKind, i: nat)
    requires k in KindsOf(c) && i < n
    ensures ModeName(k, i) in ModeList(c, n)
  {
    if i < n - 1 {
      ModeListHas(c, n - 1, k, i);
      InLeft(ModeName(k, i), ModeList(c, n - 1), ModesAt(c, n - 1));
    } else {
      ModesAtMember(c, n - 1, k, i);
      InRight(ModeName(k, i), ModeList(c, n - 1), ModesAt(c, n - 1));
    }
  }

  lemma InLeft<T>(x: T, a: seq<T>, b: seq<T>)
    requires x in a
    ensures x in a + b
  {
  }

  lemma InRight<T>(x: T, a: seq<T>, b: seq<T>)
    requires x in b
    ensures x in a + b
  {
  }

  /** Every item of the list is the name of an offered mode at one of the first n resolutions. */
  lemma {:induction false} ModeListItems(c: Caps, n: nat, p: nat)
    requires p < |ModeList(c, n)|
    ensures exists k: ModeKind, i: nat :: k in KindsOf(c) && i < n && ModeList(c, n)[p] == ModeName(k, i)
  {
    if n > 0 {
      var prev := ModeList(c, n - 1);
      if p < |prev| {
        ModeListItems(c, n - 1, p);
      } else {
        var q := p - |prev|;
        assert ModeList(c, n)[p] == ModesAt(c, n - 1)[q];
        assert ModeList(c, n)[p] == ModeName(KindsOf(c)[q], n - 1);
      }
    }
  }

  /** No two items of the list share a name. */
  lemma {:induction false} ModeListDistinct(c: Caps, n: nat)
    ensures forall a, b :: 0 <= a < b < |ModeList(c, n)| ==> ModeList(c, n)[a] != ModeList(c, n)[b]
  {
    if n > 0 {
      ModeListDistinct(c, n - 1);
      var prev := ModeList(c, n - 1);
      var at := ModesAt(c, n - 1);
      var l := ModeList(c, n);
      forall a, b | 0 <= a < b < |l|
        ensures l[a] != l[b]
      {
        if b >= |prev| {
          var kb := KindsOf(c)[b - |prev|];
          assert l[b] == ModeName(kb, n - 1);
          if a < |prev| {
            ModeListItems(c, n - 1, a);
            var ka: ModeKind, ia: nat :| ka in KindsOf(c) && ia < n - 1 && prev[a] == ModeName(ka, ia);
            ModeNameInjective(ka, ia, kb, n - 1);
          } else {
            ModeNameInjective(KindsOf(c)[a - |prev|], n - 1, kb, n - 1);
          }
        }
      }
    }
  }

  /** The items of one resolution, added one kind at a time. */
  lemma ModesAtParts(c: Caps, i: nat)
    ensures ModesAt(c, i) == (if c.raw8 then [ModeName(Raw8, i)] else [])
                             + (if Deep(c) then [ModeName(Raw16, i)] else [])
                             + (if !c.mono then [ModeName(Rgb, i)] else [])
  {
  }

  /** A frame size: one of the camera's resolutions. */
  datatype Resolution = Resolution(width: int, height: int)

  /** The attach's result: the mode items with the first one selected, and the sensor size. */
  datatype ModeSwitch = ModeSwitch(names: seq<string>, selected: seq<bool>, width: int, height: int)

  /** One pass of the attach's loop: the items of resolution i, appended one kind at a time. */
  method AddModes(c: Caps, i: nat, names: seq<string>) returns (r: seq<string>)
    ensures r == names + ModesAt(c, i)
  {
    ModesAtParts(c, i);
    r := names;
    if c.raw8 {
      r := r + [ModeName(Raw8, i)];
    }
    if Deep(c) {
      r := r + [ModeName(Raw16, i)];
    }
    if !c.mono {
      r := r + [ModeName(Rgb, i)];
    }
  }

  /**
   * The attach's loop over the camera's preview resolutions: the mode
   * items are appended in order and the sensor size is the largest width
   * and height met (zero before any); then the first item is selected.
   */
  method BuildModes(c: Caps, res: seq<Resolution>) returns (m: ModeSwitch)
    ensures m.names == ModeList(c, |res|)
    ensures m.selected == OnlyOn(|m.names|, 0)
    ensures m.width >= 0 && forall i :: 0 <= i < |res| ==> res[i].width <= m.width
    ensures m.height >= 0 && forall i :: 0 <= i < |res| ==> res[i].height <= m.height
    ensures m.width == 0 || exists i :: 0 <= i < |res| && res[i].width == m.width
    ensures m.height == 0 || exists i :: 0 <= i < |res| && res[i].height == m.height
  {
    var names: seq<string> := [];
    var width := 0;
    var height := 0;
    ghost var widest := 0;
    ghost var tallest := 0;
    for i := 0 to |res|
      invariant names == ModeList(c, i)
      invariant width >= 0 && forall j :: 0 <= j < i ==> res[j].width <= width
      invariant height >= 0 && forall j :: 0 <= j < i ==> res[j].height <= height
      invariant width == 0 || (0 <= widest < i && res[widest].width == width)
      invariant height == 0 || (0 <= tallest < i && res[tallest].height == height)
    {
      if res[i].width > width {
        width := res[i].width;
        widest := i;
      }
      if res[i].height > height {
        height := res[i].height;
        tallest := i;
      }
      names := AddModes(c, i, names);
    }
    m := ModeSwitch(names, OnlyOn(|names|, 0), width, height);
  }

  /** The frame's bit-depth limits and value, and the depth the sensor reports. */
  datatype DepthRange = DepthRange(min: int, max: int, value: int)

  /**
   * The bit-depth range the attach derives from the flags: 8 to 8 for an
   * 8-bit-only camera, 16 to 16 for a deep-only one, 8 to 16 for one with
   * both, and all zero for neither; the frame value is the deepest.
   */
  function DepthRangeOf(c: Caps): (r: DepthRange)
    ensures c.raw8 && !Deep(c) ==> r == DepthRange(8, 8, 8)
    ensures !c.raw8 && Deep(c) ==> r == DepthRange(16, 16, 16)
    ensures c.raw8 && Deep(c) ==> r == DepthRange(8, 16, 16)
    ensures !c.raw8 && !Deep(c) ==> r == DepthRange(0, 0, 0)
  {
    var afterRaw8 := if c.raw8 then DepthRange(8, 8, 8) else DepthRange(0, 0, 0);
    if Deep(c) then DepthRange(if afterRaw8.min == 0 then 16 else afterRaw8.min, 16, 16)
    else afterRaw8
  }

  // ---------------------------------------------------------------- connect and exposure

  /**
   * The mode the camera reports on connect: a mono camera is always raw;
   * a raw camera reading a non-zero bit-depth option is 16-bit, otherwise
   * 8-bit; a camera not in raw mode is colour.
   */
  function ConnectKind(mono: bool, rawOption: int, bitDepth: int): (k: ModeKind)
    ensures k == Rgb <==> !mono && rawOption == 0
    ensures k == Raw16 <==> (mono || rawOption != 0) && bitDepth != 0
  {
    if mono || rawOption != 0 then (if bitDepth != 0 then Raw16 else Raw8) else Rgb
  }

  /** The item name the connect looks for, as it prints it, is the attach's name for the reported mode. */
  function ConnectModeName(mono: bool, rawOption: int, bitDepth: int, index: nat): (name: string)
    ensures name == ModeName(ConnectKind(mono, rawOption, bitDepth), index)
  {
    if mono || rawOption != 0 then "RAW" + (if bitDepth != 0 then "16" else "8") + "_" + Digits(index)
    else "RGB_" + Digits(index)
  }

  /**
   * The connect's scan of the mode items: every item named as looked
   * for is selected alone, so the last such item ends up selected; with
   * no such item the switch is unchanged.
   */
  method SelectMode(names: seq<string>, selected: seq<bool>, name: string) returns (r: seq<bool>)
    requires |selected| == |names|
    ensures |r| == |names|
    ensures name !in names ==> r == selected
    ensures forall k :: 0 <= k < |names| && names[k] == name && (forall j :: k < j < |names| ==> names[j] != name) ==>
              r == SelectOnly(|names|, k)
  {
    r := selected;
    var last := -1;
    for i := 0 to |names|
      invariant -1 <= last < i
      invariant last == -1 ==> r == selected && forall j :: 0 <= j < i ==> names[j] != name
      invariant last >= 0 ==> names[last] == name && r == SelectOnly(|names|, last)
      invariant last >= 0 ==> forall j :: last < j < i ==> names[j] != name
    {
      if names[i] == name {
        r := SelectOnly(|names|, i);
        last := i;
      }
    }
  }

  /**
   * Connecting to a camera in an offered mode at one of its resolutions
   * selects exactly the item of that mode.
   */
  lemma ConnectSelectsMode(c: Caps, n: nat, mono: bool, rawOption: int, bitDepth: int, index: nat, k: nat)
    requires c.mono == mono && ConnectKind(mono, rawOption, bitDepth) in KindsOf(c) && index < n
    requires k < |ModeList(c, n)| && ModeList(c, n)[k] == ConnectModeName(mono, rawOption, bitDepth, index)
    ensures forall j :: k < j < |ModeList(c, n)| ==> ModeList(c, n)[j] != ConnectModeName(mono, rawOption, bitDepth, index)
    ensures DecodeMode(ModeList(c, n)[k]) == Some(ModeSetting(Bits(ConnectKind(mono, rawOption, bitDepth)), index))
  {
    ModeListDistinct(c, n);
    DecodeModeName(ConnectKind(mono, rawOption, bitDepth), index);
  }

  /** The setting the last selected item with a readable name gives, among the first n items. */
  function LastSetting(names: seq<string>, selected: seq<bool>, n: nat): Option<ModeSetting>
    requires n <= |names| == |selected|
  {
    if n == 0 then None
    else if selected[n - 1] && DecodeMode(names[n - 1]).Some? then DecodeMode(names[n - 1])
    else LastSetting(names, selected, n - 1)
  }

  /** With one item selected, the exposure's setting is that item's reading. */
  lemma {:induction false} LastSettingOfOne(names: seq<string>, n: nat, k: nat)
    requires k < n <= |names|
    ensures LastSetting(names, OnlyOn(|names|, k), n) == DecodeMode(names[k])
  {
    if n - 1 != k {
      LastSettingOfOne(names, n - 1, k);
    } else {
      assert LastSetting(names, OnlyOn(|names|, k), k) == None by {
        NoneSelectedBelow(names, k, k);
      }
    }
  }

  lemma {:induction false} NoneSelectedBelow(names: seq<string>, k: nat, n: nat)
    requires n <= k < |names|
    ensures LastSetting(names, OnlyOn(|names|, k), n) == None
  {
    if n > 0 {
      NoneSelectedBelow(names, k, n - 1);
    }
  }

  /**
   * The exposure's scan of the mode items: for every selected item with
   * a readable name, the bit depth and resolution index are set from it,
   * so the last such item decides; with none the depth stays 0.
   */
  method ExposureSetting(names: seq<string>, selected: seq<bool>) returns (bits: nat, index: int)
    requires |names| == |selected|
    ensures LastSetting(names, selected, |names|).None? ==> bits == 0
    ensures LastSetting(names, selected, |names|).Some? ==>
              ModeSetting(bits, index) == LastSetting(names, selected, |names|).value
  {
    bits := 0;
    index := 0;
    for i := 0 to |names|
      invariant LastSetting(names, selected, i).None? ==> bits == 0
      invariant LastSetting(names, selected, i).Some? ==> ModeSetting(bits, index) == LastSetting(names, selected, i).value
    {
      if selected[i] {
        var s := DecodeMode(names[i]);
        if s.Some? {
          bits := s.value.bits;
          index := s.value.index;
        }
      }
    }
  }
}
