// Parameter sets without fidelity extensions, in three profiles and with little in the VUI, bit by bit.
module KnownPlain {
  import opened Bits
  import opened BitReader
  import opened ScalingLists
  import opened HrdSyntax
  import opened VuiSyntax
  import opened SpsSyntax
  import opened SpsReader
  import opened KnownCodes
  import opened KnownFull

  function PlainOrder(): PicOrder {
    PicOrder(
      log2_max_frame_num_minus4 := 1, pic_order_cnt_type := 2, log2_max_pic_order_cnt_lsb_minus4 := 0,
      delta_pic_order_always_zero_flag := false, offset_for_non_ref_pic := 0, offset_for_top_to_bottom_field := 0,
      num_ref_frames_in_pic_order_cnt_cycle := 0, offset_for_ref_frame := ZeroOffsets())
  }

  function PlainGeometry(): Geometry {
    Geometry(
      pic_width_in_mbs_minus1 := 3, pic_height_in_map_units_minus1 := 2, frame_mbs_only_flag := false,
      mb_adaptive_frame_field_flag := false, direct_8x8_inference_flag := true, frame_cropping_flag := false,
      frame_cropping_rect_left_offset := 0, frame_cropping_rect_right_offset := 0,
      frame_cropping_rect_top_offset := 0, frame_cropping_rect_bottom_offset := 0)
  }

  function PlainSps(profile: nat, vui: Vui): Sps {
    Sps(
      valid := true, profile_idc := profile, constrained_set0_flag := true, constrained_set1_flag := true,
      constrained_set2_flag := false, constrained_set3_flag := false, level_idc := 10, seq_parameter_set_id := 2,
      fidelity := ZeroFidelity().(chroma_format_idc := 1), order := PlainOrder(), num_ref_frames := 1,
      gaps_in_frame_num_value_allowed_flag := false, geometry := PlainGeometry(),
      vui_parameters_present_flag := true, vui := vui)
  }

  function PlainCoding(): Coding {
    Coding(reserved_zero_4bits := 0, lossless_qpprime_y_zero_flag := 0, stops := seq(12, _ => 0))
  }

  /** Nothing is present. */
  function BareVui(): Vui {
    InitialVui()
  }

  function NalVui(): Vui {
    InitialVui().(nal_hrd_parameters_present_flag := true, nal_hrd_parameters := NalHrd(), low_delay_hrd_flag := true)
  }

  function VclVui(): Vui {
    InitialVui().(
      aspect_ratio_info_present_flag := true, aspect_ratio_idc := 1,
      video_signal_type_present_flag := true, video_format := 2, video_full_range_flag := true,
      vcl_hrd_parameters_present_flag := true, vcl_hrd_parameters := VclHrd(), pic_struct_present_flag := true)
  }

  /** The parameter set with BareVui as 59 bits, filled up with zero bits. */
  function BareBytes(): seq<bv8> {
    [0x58, 0xC0, 0x0A, 0x69, 0xA1, 0x19, 0x40, 0x00]
  }

  /** The parameter set with NalVui as 129 bits, filled up with zero bits. */
  function NalBytes(): seq<bv8> {
    [0x4D, 0xC0, 0x0A, 0x69, 0xA1, 0x19, 0x41, 0x46]
    + [0xA1, 0x20, 0xA4, 0x26, 0x15, 0x56, 0xD7, 0xC2]
    + [0x00]
  }

  /** The parameter set with VclVui as 121 bits, filled up with zero bits. */
  function VclBytes(): seq<bv8> {
    [0x42, 0xC0, 0x0A, 0x69, 0xA1, 0x19, 0x60, 0x2A]
    + [0x86, 0xCE, 0x1A, 0x0D, 0xB7, 0xCE, 0xF9, 0x00]
  }

  lemma HrdsAreWellFormed()
    ensures NalHrd().WellFormed() && VclHrd().WellFormed()
  {
    VuiIsWellFormed();
  }

  lemma VuisAreWellFormed()
    ensures BareVui().WellFormed() && NalVui().WellFormed() && VclVui().WellFormed()
  {
    hide NalHrd, VclHrd, Hrd.WellFormed;
    HrdsAreWellFormed();
  }

  lemma FidelityIsPlain()
    ensures FidelityWellFormed(false, ZeroFidelity().(chroma_format_idc := 1), PlainCoding())
  {
    forall i | 0 <= i < 12 ensures ListWellFormed(ZeroFidelity().(chroma_format_idc := 1), PlainCoding(), i) {
      assert ZeroList(i) == ZeroList(if i < 6 then 0 else 6);
    }
  }

  lemma PlainIsWellFormed(p: nat, vui: Vui)
    requires p == 66 || p == 77 || p == 88
    requires vui.WellFormed()
    ensures WellFormed(PlainSps(p, vui), PlainCoding())
  {
    hide ZeroFidelity, PlainCoding, FidelityWellFormed, Vui.WellFormed;
    FidelityIsPlain();
  }

  lemma ProfileBits(p: nat, vui: Vui, t: Script, w: Word) returns (n: Word)
    requires p < 256
    ensures Fold(Then(U(8, p), ConstraintScript(PlainSps(p, vui), t)), w) == Fold(t, n)
    ensures n == Word(w.length + 12, 0x1000 * w.number + 0x10 * p + 12, w.short)
  {
    hide Fold;
    n := FoldFour(U(8, p), U(1, 1), U(1, 1), U(1, 0), Then(U(1, 0), t), w);
    n := FoldOne(U(1, 0), t, n);
  }

  lemma LevelBits(p: nat, vui: Vui, t: Script, w: Word) returns (n: Word)
    ensures Fold(LevelScript(PlainSps(p, vui), PlainCoding(), t), w) == Fold(t, n)
    ensures n == Word(w.length + 15, 0x8000 * w.number + 0x53, w.short)
  {
    hide Fold;
    n := w;
    n := FoldOne(U(4, 0), Then(U(8, 10), Then(UE(2), t)), n);
    n := FoldOne(U(8, 10), Then(UE(2), t), n);
    n := FoldOne(UE(2), t, n);
  }

  lemma OrderBits(t: Script, w: Word) returns (n: Word)
    ensures Fold(OrderScript(PlainOrder(), t), w) == Fold(t, n)
    ensures n == Word(w.length + 6, 0x40 * w.number + 0x13, w.short)
  {
    hide Fold;
    n := w;
    n := FoldOne(UE(1), Then(UE(2), t), n);
    n := FoldOne(UE(2), t, n);
  }

  lemma RefFramesBits(t: Script, w: Word) returns (n: Word)
    ensures Fold(Then(UE(1), Then(FlagOf(false), t)), w) == Fold(t, n)
    ensures n == Word(w.length + 4, 0x10 * w.number + 0x4, w.short)
  {
    hide Fold;
    n := w;
    n := FoldOne(UE(1), Then(U(1, 0), t), n);
    n := FoldOne(U(1, 0), t, n);
  }

  lemma SizeBits(t: Script, w: Word) returns (n: Word)
    ensures Fold(SizeScript(PlainGeometry(), t), w) == Fold(CropScript(PlainGeometry(), t), n)
    ensures n == Word(w.length + 10, 0x400 * w.number + 0x8c, w.short)
  {
    hide Fold, CropScript;
    n := w;
    n := FoldFour(UE(3), UE(2), U(1, 0), U(1, 0), CropScript(PlainGeometry(), t), n);
  }

  lemma CropBits(t: Script, w: Word) returns (n: Word)
    ensures Fold(CropScript(PlainGeometry(), t), w) == Fold(t, n)
    ensures n == Word(w.length + 2, 0x4 * w.number + 0x2, w.short)
  {
    hide Fold;
    n := w;
    n := FoldOne(U(1, 1), Then(U(1, 0), t), n);
    n := FoldOne(U(1, 0), t, n);
  }

  lemma VuiFlagBits(t: Script, w: Word) returns (n: Word)
    ensures Fold(Then(FlagOf(true), t), w) == Fold(t, n)
    ensures n == Word(w.length + 1, 0x2 * w.number + 0x1, w.short)
  {
    hide Fold;
    n := w;
    n := FoldOne(U(1, 1), t, n);
  }

  lemma NoPictureBits(v: Vui, t: Script, w: Word) returns (n: Word)
    requires !v.aspect_ratio_info_present_flag && !v.overscan_info_present_flag && !v.video_signal_type_present_flag
    ensures Fold(PictureScript(v, t), w) == Fold(t, n)
    ensures n == Word(w.length + 3, 0x8 * w.number + 0x0, w.short)
  {
    hide Fold;
    n := w;
    n := FoldOne(U(1, 0), Then(U(1, 0), Then(U(1, 0), t)), n);
    n := FoldOne(U(1, 0), Then(U(1, 0), t), n);
    n := FoldOne(U(1, 0), t, n);
  }

  lemma NoClockBits(v: Vui, t: Script, w: Word) returns (n: Word)
    requires !v.chroma_location_info_present_flag && !v.timing_info_present_flag
    ensures Fold(ClockScript(v, t), w) == Fold(t, n)
    ensures n == Word(w.length + 2, 0x4 * w.number + 0x0, w.short)
  {
    hide Fold;
    n := w;
    n := FoldOne(U(1, 0), Then(U(1, 0), t), n);
    n := FoldOne(U(1, 0), t, n);
  }

  lemma PictureBits(t: Script, w: Word) returns (n: Word)
    ensures Fold(PictureScript(VclVui(), t), w) == Fold(t, n)
    ensures n == Word(w.length + 16, 0x10000 * w.number + 0x80aa, w.short)
  {
    hide Fold;
    n := w;
    n := FoldFour(U(1, 1), U(8, 1), U(1, 0), U(1, 1), Then(U(3, 2), Then(U(1, 1), Then(U(1, 0), t))), n);
    n := FoldOne(U(3, 2), Then(U(1, 1), Then(U(1, 0), t)), n);
    n := FoldOne(U(1, 1), Then(U(1, 0), t), n);
    n := FoldOne(U(1, 0), t, n);
  }

  lemma RestrictionBits(v: Vui, t: Script, w: Word) returns (n: Word)
    requires !v.pic_struct_present_flag && !v.bitstream_restriction_flag
    ensures Fold(RestrictionScript(v, t), w) == Fold(t, n)
    ensures n == Word(w.length + 2, 0x4 * w.number + 0x0, w.short)
  {
    hide Fold;
    n := w;
    n := FoldOne(U(1, 0), Then(U(1, 0), t), n);
    n := FoldOne(U(1, 0), t, n);
  }

  lemma StructBits(v: Vui, t: Script, w: Word) returns (n: Word)
    requires v.pic_struct_present_flag && !v.bitstream_restriction_flag
    ensures Fold(RestrictionScript(v, t), w) == Fold(t, n)
    ensures n == Word(w.length + 2, 0x4 * w.number + 0x2, w.short)
  {
    hide Fold;
    n := w;
    n := FoldOne(U(1, 1), Then(U(1, 0), t), n);
    n := FoldOne(U(1, 0), t, n);
  }

  lemma BareHrdsBits(t: Script, w: Word) returns (n: Word)
    requires BareVui().WellFormed()
    ensures Fold(HrdsScript(BareVui(), t), w) == Fold(t, n)
    ensures n == Word(w.length + 2, 0x4 * w.number + 0x0, w.short)
  {
    hide Fold, HrdScript, Vui.WellFormed;
    n := FoldOne(U(1, 0), Then(U(1, 0), t), w);
    n := FoldOne(U(1, 0), t, n);
  }

  lemma NalHrdsBits(t: Script, w: Word) returns (n: Word)
    requires NalVui().WellFormed()
    ensures Fold(HrdsScript(NalVui(), t), w) == Fold(t, n)
    ensures n == Word(w.length + 72, 0x1000000000000000000 * w.number + 0xa3509052130aab6be1, w.short)
  {
    hide Fold, HrdScript, Vui.WellFormed, NalHrd, Hrd.WellFormed;
    var next := Then(U(1, 0), Then(U(1, 1), t));
    HrdsAreWellFormed();
    n := FoldOne(U(1, 1), HrdScript(NalHrd(), next), w);
    n := NalHrdBits(next, n);
    n := FoldOne(U(1, 0), Then(U(1, 1), t), n);
    n := FoldOne(U(1, 1), t, n);
  }

  lemma VclHrdsBits(t: Script, w: Word) returns (n: Word)
    requires VclVui().WellFormed()
    ensures Fold(HrdsScript(VclVui(), t), w) == Fold(t, n)
    ensures n == Word(w.length + 51, 0x8000000000000 * w.number + 0x3670d06dbe77c, w.short)
  {
    hide Fold, HrdScript, Vui.WellFormed, VclHrd, Hrd.WellFormed;
    var next := Then(U(1, 0), t);
    HrdsAreWellFormed();
    n := FoldOne(U(1, 0), VclHrdScript(VclVui(), next), w);
    n := FoldOne(U(1, 1), HrdScript(VclHrd(), next), n);
    n := VclHrdBits(next, n);
    n := FoldOne(U(1, 0), t, n);
  }

  lemma BareVuiBits(t: Script, w: Word) returns (n: Word)
    requires BareVui().WellFormed()
    ensures Fold(VuiScript(BareVui(), t), w) == Fold(t, n)
    ensures n == Word(w.length + 9, 0x200 * w.number + 0x0, w.short)
  {
    hide Fold, HrdsScript, PictureScript, ClockScript, RestrictionScript, Vui.WellFormed, NalHrd, VclHrd;
    var restriction := RestrictionScript(BareVui(), t);
    var hrds := HrdsScript(BareVui(), restriction);
    var clock := ClockScript(BareVui(), hrds);
    n := NoPictureBits(BareVui(), clock, w);
    n := NoClockBits(BareVui(), hrds, n);
    n := BareHrdsBits(restriction, n);
    n := RestrictionBits(BareVui(), t, n);
  }

  lemma NalVuiBits(t: Script, w: Word) returns (n: Word)
    requires NalVui().WellFormed()
    ensures Fold(VuiScript(NalVui(), t), w) == Fold(t, n)
    ensures n == Word(w.length + 79, 0x80000000000000000000 * w.number + 0x28d4241484c2aadaf84, w.short)
  {
    hide Fold, HrdsScript, PictureScript, ClockScript, RestrictionScript, Vui.WellFormed, NalHrd, VclHrd;
    var restriction := RestrictionScript(NalVui(), t);
    var hrds := HrdsScript(NalVui(), restriction);
    var clock := ClockScript(NalVui(), hrds);
    n := NoPictureBits(NalVui(), clock, w);
    n := NoClockBits(NalVui(), hrds, n);
    n := NalHrdsBits(restriction, n);
    n := RestrictionBits(NalVui(), t, n);
  }

  lemma VclVuiBits(t: Script, w: Word) returns (n: Word)
    requires VclVui().WellFormed()
    ensures Fold(VuiScript(VclVui(), t), w) == Fold(t, n)
    ensures n == Word(w.length + 71, 0x800000000000000000 * w.number + 0x40550d9c341b6f9df2, w.short)
  {
    hide Fold, HrdsScript, PictureScript, ClockScript, RestrictionScript, Vui.WellFormed, NalHrd, VclHrd;
    var restriction := RestrictionScript(VclVui(), t);
    var hrds := HrdsScript(VclVui(), restriction);
    var clock := ClockScript(VclVui(), hrds);
    n := PictureBits(clock, w);
    n := NoClockBits(VclVui(), hrds, n);
    n := VclHrdsBits(restriction, n);
    n := StructBits(VclVui(), t, n);
  }

  /** Everything before the VUI. */
  lemma PlainBits(p: nat, vui: Vui) returns (n: Word)
    requires p == 66 || p == 77 || p == 88
    requires vui.WellFormed() && WellFormed(PlainSps(p, vui), PlainCoding())
    ensures Fold(SpsScript(PlainSps(p, vui), PlainCoding(), End), Word(0, 0, true)) == Fold(VuiScript(vui, End), n)
    ensures n == Word(50, 0x40000000000 * p + 0x30029a68465, true)
  {
    hide Fold, ConstraintScript, LevelScript, OrderScript, SizeScript, VuiScript, ZeroFidelity, PlainCoding;
    hide FidelityWellFormed, OrderWellFormed, GeometryWellFormed, Vui.WellFormed, PlainOrder, PlainGeometry;
    var flag := Then(FlagOf(true), VuiScript(vui, End));
    var refFrames := Then(UE(1), Then(FlagOf(false), SizeScript(PlainGeometry(), flag)));
    var order := OrderScript(PlainOrder(), refFrames);
    var level := LevelScript(PlainSps(p, vui), PlainCoding(), order);
    n := ProfileBits(p, vui, level, Word(0, 0, true));
    n := LevelBits(p, vui, order, n);
    n := OrderBits(refFrames, n);
    n := RefFramesBits(SizeScript(PlainGeometry(), flag), n);
    n := SizeBits(flag, n);
    n := CropBits(flag, n);
    n := VuiFlagBits(VuiScript(vui, End), n);
  }

  lemma NumberOfBare()
    ensures BytesNumber(BareBytes()) == 0x58c00a69a1194000
  {
    hide BytesNumber;
    NoBytes();
    var front: seq<bv8> := [];
    front := BytesOf8(front, 0x58, 0xC0, 0x0A, 0x69, 0xA1, 0x19, 0x40, 0x00);
    assert front == BareBytes();
  }

  /** The code of the parameter set with BareVui. */
  lemma BitsOfBare()
    ensures WellFormed(PlainSps(88, BareVui()), PlainCoding()) && SpsScript(PlainSps(88, BareVui()), PlainCoding(),
              End).Valid()
    ensures SpsScript(PlainSps(88, BareVui()), PlainCoding(), End).Bits() == BufferBits(BareBytes())[..59]
    ensures |SpsScript(PlainSps(88, BareVui()), PlainCoding(), End).Bits()| == 59 && |BareBytes()| == 8
  {
    hide Fold, WellFormed, SpsScript, Script.Bits, Script.Valid, BytesNumber, Value, BufferBits, Pow2;
    hide VuiScript, BareVui, PlainSps, PlainCoding, Vui.WellFormed;
    VuisAreWellFormed();
    PlainIsWellFormed(88, BareVui());
    var script := SpsScript(PlainSps(88, BareVui()), PlainCoding(), End);
    var n := PlainBits(88, BareVui());
    n := BareVuiBits(End, n);
    FoldEnd(n);
    FoldGives(script, n);
    NumberOfBare();
    Powers();
    SameBits(script.Bits(), BareBytes(), 5);
  }

  /** InterpretSPS on these bytes. */
  method InterpretBare() returns (r: int, sps: SeqParameterSet)
    ensures r == 0 && sps.Contents() == PlainSps(88, BareVui())
  {
    hide WellFormed, SpsScript, Script.Bits, Script.Valid, BufferBits, PlainSps, PlainCoding, BareVui;
    BitsOfBare();
    r, sps := InterpretBytes(BareBytes(), PlainSps(88, BareVui()), PlainCoding());
  }

  lemma NumberOfNal()
    ensures BytesNumber(NalBytes()) == 0x4dc00a69a1194146a120a4261556d7c200
  {
    hide BytesNumber;
    NoBytes();
    var front: seq<bv8> := [];
    front := BytesOf8(front, 0x4D, 0xC0, 0x0A, 0x69, 0xA1, 0x19, 0x41, 0x46);
    front := BytesOf8(front, 0xA1, 0x20, 0xA4, 0x26, 0x15, 0x56, 0xD7, 0xC2);
    front := BytesOf1(front, 0x00);
    assert front == NalBytes();
  }

  /** The code of the parameter set with NalVui. */
  lemma BitsOfNal()
    ensures WellFormed(PlainSps(77, NalVui()), PlainCoding()) && SpsScript(PlainSps(77, NalVui()), PlainCoding(),
              End).Valid()
    ensures SpsScript(PlainSps(77, NalVui()), PlainCoding(), End).Bits() == BufferBits(NalBytes())[..129]
    ensures |SpsScript(PlainSps(77, NalVui()), PlainCoding(), End).Bits()| == 129 && |NalBytes()| == 17
  {
    hide Fold, WellFormed, SpsScript, Script.Bits, Script.Valid, BytesNumber, Value, BufferBits, Pow2;
    hide VuiScript, NalVui, PlainSps, PlainCoding, Vui.WellFormed;
    VuisAreWellFormed();
    PlainIsWellFormed(77, NalVui());
    var script := SpsScript(PlainSps(77, NalVui()), PlainCoding(), End);
    var n := PlainBits(77, NalVui());
    n := NalVuiBits(End, n);
    FoldEnd(n);
    FoldGives(script, n);
    NumberOfNal();
    Powers();
    SameBits(script.Bits(), NalBytes(), 7);
  }

  /** InterpretSPS on these bytes. */
  method InterpretNal() returns (r: int, sps: SeqParameterSet)
    ensures r == 0 && sps.Contents() == PlainSps(77, NalVui())
  {
    hide WellFormed, SpsScript, Script.Bits, Script.Valid, BufferBits, PlainSps, PlainCoding, NalVui;
    BitsOfNal();
    r, sps := InterpretBytes(NalBytes(), PlainSps(77, NalVui()), PlainCoding());
  }

  lemma NumberOfVcl()
    ensures BytesNumber(VclBytes()) == 0x42c00a69a119602a86ce1a0db7cef900
  {
    hide BytesNumber;
    NoBytes();
    var front: seq<bv8> := [];
    front := BytesOf8(front, 0x42, 0xC0, 0x0A, 0x69, 0xA1, 0x19, 0x60, 0x2A);
    front := BytesOf8(front, 0x86, 0xCE, 0x1A, 0x0D, 0xB7, 0xCE, 0xF9, 0x00);
    assert front == VclBytes();
  }

  /** The code of the parameter set with VclVui. */
  lemma BitsOfVcl()
    ensures WellFormed(PlainSps(66, VclVui()), PlainCoding()) && SpsScript(PlainSps(66, VclVui()), PlainCoding(),
              End).Valid()
    ensures SpsScript(PlainSps(66, VclVui()), PlainCoding(), End).Bits() == BufferBits(VclBytes())[..121]
    ensures |SpsScript(PlainSps(66, VclVui()), PlainCoding(), End).Bits()| == 121 && |VclBytes()| == 16
  {
    hide Fold, WellFormed, SpsScript, Script.Bits, Script.Valid, BytesNumber, Value, BufferBits, Pow2;
    hide VuiScript, VclVui, PlainSps, PlainCoding, Vui.WellFormed;
    VuisAreWellFormed();
    PlainIsWellFormed(66, VclVui());
    var script := SpsScript(PlainSps(66, VclVui()), PlainCoding(), End);
    var n := PlainBits(66, VclVui());
    n := VclVuiBits(End, n);
    FoldEnd(n);
    FoldGives(script, n);
    NumberOfVcl();
    Powers();
    SameBits(script.Bits(), VclBytes(), 7);
  }

  /** InterpretSPS on these bytes. */
  method InterpretVcl() returns (r: int, sps: SeqParameterSet)
    ensures r == 0 && sps.Contents() == PlainSps(66, VclVui())
  {
    hide WellFormed, SpsScript, Script.Bits, Script.Valid, BufferBits, PlainSps, PlainCoding, VclVui;
    BitsOfVcl();
    r, sps := InterpretBytes(VclBytes(), PlainSps(66, VclVui()), PlainCoding());
  }
}
