// A High 4:4:4 parameter set with twelve scaling lists, a picture order count cycle and all of the VUI, bit by bit.
module KnownFull {
  import opened Bits
  import opened BitReader
  import opened ScalingLists
  import opened HrdSyntax
  import opened VuiSyntax
  import opened SpsSyntax
  import opened SpsReader
  import opened KnownCodes
  import opened KnownLists

  /** Scaling lists 0, 7 and 11 are sent: sixteen scales, two scales of which one wraps, and a flat list. */
  function FullFidelity(): Fidelity {
    var z := ZeroFidelity();
    Fidelity(
      chroma_format_idc := 3, separate_colour_plane_flag := 1, bit_depth_luma_minus8 := 1,
          bit_depth_chroma_minus8 := 2,
      seq_scaling_matrix_present_flag := true,
      seq_scaling_list_present_flag := z.seq_scaling_list_present_flag[0 := 1][7 := 1][11 := 1],
      scalingList4x4 := z.scalingList4x4[0 := Sixteen()],
      scalingList8x8 := z.scalingList8x8[1 := Stepped(64, 250, 3)][5 := Stepped(64, 9, 9)],
      useDefaultScalingMatrix4x4Flag := z.useDefaultScalingMatrix4x4Flag,
      useDefaultScalingMatrix8x8Flag := z.useDefaultScalingMatrix8x8Flag)
  }

  /** A list whose scales grow along the zig-zag. */
  function Sixteen(): seq<int> {
    [ 6, 13, 22, 28,
     14, 21, 29, 34,
     20, 30, 33, 37,
     31, 32, 38, 42]
  }

  function FullOrder(): PicOrder {
    PicOrder(
      log2_max_frame_num_minus4 := 2, pic_order_cnt_type := 1, log2_max_pic_order_cnt_lsb_minus4 := 0,
      delta_pic_order_always_zero_flag := true, offset_for_non_ref_pic := -3, offset_for_top_to_bottom_field := 5,
      num_ref_frames_in_pic_order_cnt_cycle := 2, offset_for_ref_frame := ZeroOffsets()[0 := 7][1 := -8])
  }

  function FullGeometry(): Geometry {
    Geometry(
      pic_width_in_mbs_minus1 := 10, pic_height_in_map_units_minus1 := 20, frame_mbs_only_flag := false,
      mb_adaptive_frame_field_flag := true, direct_8x8_inference_flag := false, frame_cropping_flag := false,
      frame_cropping_rect_left_offset := 0, frame_cropping_rect_right_offset := 0,
      frame_cropping_rect_top_offset := 0, frame_cropping_rect_bottom_offset := 0)
  }

  function NalHrd(): Hrd {
    Hrd(
      cpb_cnt_minus1 := 1, bit_rate_scale := 3, cpb_size_scale := 5, bit_rate_value_minus1 := ZeroTable(
          )[0 := 17][1 := 18],
      cpb_size_value_minus1 := ZeroTable()[0 := 19][1 := 20], cbr_flag := ZeroTable()[0 := 1],
      initial_cpb_removal_delay_length_minus1 := 21, cpb_removal_delay_length_minus1 := 22,
      dpb_output_delay_length_minus1 := 23, time_offset_length := 24)
  }

  function VclHrd(): Hrd {
    Hrd(
      cpb_cnt_minus1 := 0, bit_rate_scale := 6, cpb_size_scale := 7, bit_rate_value_minus1 := ZeroTable()[0 := 25],
      cpb_size_value_minus1 := ZeroTable()[0 := 26], cbr_flag := ZeroTable(),
      initial_cpb_removal_delay_length_minus1 := 27, cpb_removal_delay_length_minus1 := 28,
      dpb_output_delay_length_minus1 := 29, time_offset_length := 30)
  }

  function FullVui(): Vui {
    Vui(
      aspect_ratio_info_present_flag := true, aspect_ratio_idc := 255, sar_width := 0x1234, sar_height := 0x5678,
      overscan_info_present_flag := true, overscan_appropriate_flag := true,
      video_signal_type_present_flag := true, video_format := 5, video_full_range_flag := false,
      colour_description_present_flag := true, colour_primaries := 9, transfer_characteristics := 10,
      matrix_coefficients := 11,
      chroma_location_info_present_flag := true, chroma_sample_loc_type_top_field := 3,
      chroma_sample_loc_type_bottom_field := 4,
      timing_info_present_flag := true, num_units_in_tick := 1001, time_scale := 60000, fixed_frame_rate_flag := true,
      nal_hrd_parameters_present_flag := true, nal_hrd_parameters := NalHrd(),
      vcl_hrd_parameters_present_flag := true, vcl_hrd_parameters := VclHrd(),
      low_delay_hrd_flag := true, pic_struct_present_flag := false,
      bitstream_restriction_flag := true, motion_vectors_over_pic_boundaries_flag := true,
      max_bytes_per_pic_denom := 11, max_bits_per_mb_denom := 12, log2_max_mv_length_vertical := 13,
      log2_max_mv_length_horizontal := 14, num_reorder_frames := 15, max_dec_frame_buffering := 16)
  }

  function FullSps(): Sps {
    Sps(
      valid := true, profile_idc := 244, constrained_set0_flag := false, constrained_set1_flag := true,
      constrained_set2_flag := true, constrained_set3_flag := false, level_idc := 51, seq_parameter_set_id := 9,
      fidelity := FullFidelity(), order := FullOrder(), num_ref_frames := 6,
      gaps_in_frame_num_value_allowed_flag := true, geometry := FullGeometry(),
      vui_parameters_present_flag := true, vui := FullVui())
  }

  function FullCoding(): Coding {
    Coding(reserved_zero_4bits := 10, lossless_qpprime_y_zero_flag := 0, stops := seq(12,
        _ => 0)[0 := 16][7 := 2][11 := 1])
  }

  /** The parameter set as 544 bits, filled up with zero bits. */
  function FullBytes(): seq<bv8> {
    FullFront() + FullBack()
  }

  function FullFront(): seq<bv8> {
    [0xF4, 0x6A, 0x33, 0x14, 0x4A, 0x6C, 0xA3, 0x90]
    + [0xC4, 0x86, 0x24, 0x92, 0x46, 0x42, 0x00, 0x87]
    + [0x42, 0x47, 0x14, 0x13, 0x6A, 0x71, 0x4C, 0x70]
    + [0x44, 0xF1, 0x61, 0x54, 0xFF, 0xC4, 0x8D, 0x15]
  }

  function FullBack(): seq<bv8> {
    [0x9E, 0x3D, 0x42, 0x42, 0x82, 0xE4, 0x2C, 0x00]
    + [0x00, 0x0F, 0xA4, 0x00, 0x03, 0xA9, 0x83, 0x46]
    + [0xA1, 0x20, 0xA4, 0x26, 0x15, 0x56, 0xD7, 0xC6]
    + [0xCE, 0x1A, 0x0D, 0xB7, 0xCE, 0xFA, 0xC6, 0x0D]
    + [0x1E, 0x38, 0x20, 0x11]
  }

  lemma FidelityIsWellFormed()
    ensures FidelityWellFormed(true, FullFidelity(), FullCoding())
  {
    hide Codable, Stepped, Sixteen, ZeroList;
    var f, c := FullFidelity(), FullCoding();
    Shapes();
    SixteenInScanOrder();
    SteppedIsCodable(64, 250, 3, 2);
    SteppedIsCodable(64, 9, 9, 1);
    forall i | 0 <= i < 12 ensures ListWellFormed(f, c, i) {
      ZeroListAt(i);
    }
  }

  lemma Shapes()
    ensures FidelityShape(FullFidelity(), FullCoding())
  {
  }

  lemma SixteenInScanOrder()
    ensures Codable(Sixteen(), 16) && |Sixteen()| == 16
    ensures Last(Sixteen(), 0) == 8 && Last(Sixteen(), 1) == 6 && Last(Sixteen(), 2) == 13 && Last(Sixteen(), 3) == 14
    ensures Last(Sixteen(), 4) == 20 && Last(Sixteen(), 5) == 21 && Last(Sixteen(), 6) == 22 && Last(Sixteen(),
              7) == 28
    ensures Last(Sixteen(), 8) == 29 && Last(Sixteen(), 9) == 30 && Last(Sixteen(), 10) == 31 && Last(Sixteen(),
              11) == 32
    ensures Last(Sixteen(), 12) == 33 && Last(Sixteen(), 13) == 34 && Last(Sixteen(), 14) == 37 && Last(Sixteen(),
              15) == 38
    ensures Last(Sixteen(), 16) == 42
  {
  }

  lemma ProfileBits(t: Script, w: Word) returns (n: Word)
    ensures Fold(Then(U(8, 244), ConstraintScript(FullSps(), t)), w) == Fold(t, n)
    ensures n == Word(w.length + 12, 0x1000 * w.number + 0xf46, w.short)
  {
    hide Fold;
    n := w;
    n := FoldFour(U(8, 244), U(1, 0), U(1, 1), U(1, 1), Then(U(1, 0), t), n);
    n := FoldOne(U(1, 0), t, n);
  }

  lemma LevelBits(t: Script, w: Word) returns (n: Word)
    ensures Fold(LevelScript(FullSps(), FullCoding(), t), w) == Fold(t, n)
    ensures n == Word(w.length + 19, 0x80000 * w.number + 0x5198a, w.short)
  {
    hide Fold;
    n := w;
    n := FoldOne(U(4, 10), Then(U(8, 51), Then(UE(9), t)), n);
    n := FoldOne(U(8, 51), Then(UE(9), t), n);
    n := FoldOne(UE(9), t, n);
  }

  lemma DepthBits(f: Fidelity, c: Coding, t: Script, w: Word) returns (n: Word)
    requires FidelityWellFormed(true, f, c)
    requires f.chroma_format_idc == 3 && f.separate_colour_plane_flag == 1
    requires f.bit_depth_luma_minus8 == 1 && f.bit_depth_chroma_minus8 == 2
    requires c.lossless_qpprime_y_zero_flag == 0 && f.seq_scaling_matrix_present_flag
    ensures Fold(FidelityScript(true, f, c, t), w) == Fold(ListsScript(f, c, 0, t), n)
    ensures n == Word(w.length + 14, 0x4000 * w.number + 0x94d, w.short)
  {
    hide Fold, ListsScript, ListWellFormed;
    n := w;
    n := FoldFour(UE(3), U(1, 1), UE(1), UE(2), Then(U(1, 0), Then(U(1, 1), ListsScript(f, c, 0, t))), n);
    n := FoldOne(U(1, 0), Then(U(1, 1), ListsScript(f, c, 0, t)), n);
    n := FoldOne(U(1, 1), ListsScript(f, c, 0, t), n);
  }

  lemma FirstScales(t: Script, w: Word) returns (n: Word)
    requires Codable(Sixteen(), 16)
    ensures Fold(ListScript(Sixteen(), 16, 0, t), w) == Fold(ListScript(Sixteen(), 16, 5, t), n)
    ensures n == Word(w.length + 25, 0x2000000 * w.number + 0x51c862, w.short)
  {
    hide Fold, ListScript, Codable, Last, Sixteen;
    SixteenInScanOrder();
    var l := Sixteen();
    n := w;
    n := FoldScale(l, 16, 0, -2, t, n);
    n := FoldScale(l, 16, 1, 7, t, n);
    n := FoldScale(l, 16, 2, 1, t, n);
    n := FoldScale(l, 16, 3, 6, t, n);
    n := FoldScale(l, 16, 4, 1, t, n);
  }

  lemma MiddleScales(t: Script, w: Word) returns (n: Word)
    requires Codable(Sixteen(), 16)
    ensures Fold(ListScript(Sixteen(), 16, 5, t), w) == Fold(ListScript(Sixteen(), 16, 11, t), n)
    ensures n == Word(w.length + 22, 0x400000 * w.number + 0x10c492, w.short)
  {
    hide Fold, ListScript, Codable, Last, Sixteen;
    SixteenInScanOrder();
    var l := Sixteen();
    n := w;
    n := FoldScale(l, 16, 5, 1, t, n);
    n := FoldScale(l, 16, 6, 6, t, n);
    n := FoldScale(l, 16, 7, 1, t, n);
    n := FoldScale(l, 16, 8, 1, t, n);
    n := FoldScale(l, 16, 9, 1, t, n);
    n := FoldScale(l, 16, 10, 1, t, n);
  }

  lemma LastScales(t: Script, w: Word) returns (n: Word)
    requires Codable(Sixteen(), 16)
    ensures Fold(ListScript(Sixteen(), 16, 11, t), w) == Fold(ListScript(Sixteen(), 16, 16, t), n)
    ensures n == Word(w.length + 21, 0x200000 * w.number + 0x91908, w.short)
  {
    hide Fold, ListScript, Codable, Last, Sixteen;
    SixteenInScanOrder();
    var l := Sixteen();
    n := w;
    n := FoldScale(l, 16, 11, 1, t, n);
    n := FoldScale(l, 16, 12, 1, t, n);
    n := FoldScale(l, 16, 13, 3, t, n);
    n := FoldScale(l, 16, 14, 1, t, n);
    n := FoldScale(l, 16, 15, 4, t, n);
  }

  lemma FirstList(f: Fidelity, c: Coding, t: Script, w: Word) returns (n: Word)
    requires FidelityWellFormed(true, f, c) && CodedLists(f) == 12
    requires f.seq_scaling_list_present_flag[0] == 1 && f.scalingList4x4[0] == Sixteen() && c.stops[0] == 16
    ensures Fold(ListsScript(f, c, 0, t), w) == Fold(ListsScript(f, c, 1, t), n)
    ensures n == Word(w.length + 69, 0x200000000000000000 * w.number + 0x128e43121892491908, w.short)
  {
    hide Fold, ListScript, ListsScript, ListWellFormed, Codable, Sixteen;
    var next := ListsScript(f, c, 1, t);
    n := FoldPresent(f, c, 0, t, w);
    n := FirstScales(next, n);
    n := MiddleScales(next, n);
    n := LastScales(next, n);
    SixteenInScanOrder();
    FoldLast(Sixteen(), next, n);
  }

  lemma AbsentLists(f: Fidelity, c: Coding, t: Script, w: Word) returns (n: Word)
    requires FidelityWellFormed(true, f, c) && CodedLists(f) == 12
    requires forall i :: 1 <= i < 7 ==> f.seq_scaling_list_present_flag[i] == 0
    ensures Fold(ListsScript(f, c, 1, t), w) == Fold(ListsScript(f, c, 7, t), n)
    ensures n == Word(w.length + 6, 0x40 * w.number + 0x0, w.short)
  {
    hide Fold, ListScript, ListWellFormed, Codable, Last, Scan, ListsScript;
    n := FoldAbsent(f, c, 1, t, w);
    n := FoldAbsent(f, c, 2, t, n);
    n := FoldAbsent(f, c, 3, t, n);
    n := FoldAbsent(f, c, 4, t, n);
    n := FoldAbsent(f, c, 5, t, n);
    n := FoldAbsent(f, c, 6, t, n);
  }

  lemma WrappingList(f: Fidelity, c: Coding, t: Script, w: Word) returns (n: Word)
    requires FidelityWellFormed(true, f, c) && CodedLists(f) == 12
    requires f.seq_scaling_list_present_flag[7] == 1 && f.seq_scaling_list_present_flag[8] == 0
    requires f.seq_scaling_list_present_flag[9] == 0 && f.seq_scaling_list_present_flag[10] == 0
    requires f.scalingList8x8[1] == Stepped(64, 250, 3) && c.stops[7] == 2
    ensures Fold(ListsScript(f, c, 7, t), w) == Fold(ListsScript(f, c, 11, t), n)
    ensures n == Word(w.length + 27, 0x8000000 * w.number + 0x43a1238, w.short)
  {
    hide Fold, ListScript, ListWellFormed, Codable, Last, Scan, ListsScript;
    n := FoldPresent(f, c, 7, t, w);
    n := FoldStepped(64, 250, 3, ListsScript(f, c, 8, t), n);
    n := FoldAbsent(f, c, 8, t, n);
    n := FoldAbsent(f, c, 9, t, n);
    n := FoldAbsent(f, c, 10, t, n);
  }

  lemma FlatList(f: Fidelity, c: Coding, t: Script, w: Word) returns (n: Word)
    requires FidelityWellFormed(true, f, c) && CodedLists(f) == 12
    requires f.seq_scaling_list_present_flag[11] == 1
    requires f.scalingList8x8[5] == Stepped(64, 9, 9) && c.stops[11] == 1
    ensures Fold(ListsScript(f, c, 11, t), w) == Fold(t, n)
    ensures n == Word(w.length + 13, 0x2000 * w.number + 0x1413, w.short)
  {
    hide Fold, ListScript, ListWellFormed, Codable, Last, Scan;
    var l := Stepped(64, 9, 9);
    LastAtStart(l);
    ScansOfStepped(64, 9, 9);
    n := FoldPresent(f, c, 11, t, w);
    n := FoldScale(l, 1, 0, 1, t, n);
    n := FoldStop(l, 1, -9, t, n);
  }

  lemma OrderBits(t: Script, w: Word) returns (n: Word)
    requires OrderWellFormed(FullOrder())
    ensures Fold(OrderScript(FullOrder(), t), w) == Fold(CycleScript(FullOrder(), t), n)
    ensures n == Word(w.length + 6, 0x40 * w.number + 0x1a, w.short)
  {
    hide Fold, OrderWellFormed, CycleScript;
    n := w;
    n := FoldOne(UE(2), Then(UE(1), CycleScript(FullOrder(), t)), n);
    n := FoldOne(UE(1), CycleScript(FullOrder(), t), n);
  }

  lemma CycleBits(t: Script, w: Word) returns (n: Word)
    requires OrderWellFormed(FullOrder())
    ensures Fold(CycleScript(FullOrder(), t), w) == Fold(OffsetsScript(FullOrder(), 0, t), n)
    ensures n == Word(w.length + 16, 0x10000 * w.number + 0x9c53, w.short)
  {
    hide Fold, OrderWellFormed, OffsetsScript;
    n := w;
    n := FoldFour(U(1, 1), SE(-3), SE(5), UE(2), OffsetsScript(FullOrder(), 0, t), n);
  }

  lemma OffsetBits(t: Script, w: Word) returns (n: Word)
    requires OrderWellFormed(FullOrder())
    ensures Fold(OffsetsScript(FullOrder(), 0, t), w) == Fold(t, n)
    ensures n == Word(w.length + 16, 0x10000 * w.number + 0x1c11, w.short)
  {
    hide Fold, OrderWellFormed;
    assert OffsetsScript(FullOrder(), 2, t) == t;
    n := FoldOne(SE(7), Then(SE(-8), t), w);
    n := FoldOne(SE(-8), t, n);
  }

  lemma RefFramesBits(t: Script, w: Word) returns (n: Word)
    ensures Fold(Then(UE(6), Then(FlagOf(true), t)), w) == Fold(t, n)
    ensures n == Word(w.length + 6, 0x40 * w.number + 0xf, w.short)
  {
    hide Fold;
    n := w;
    n := FoldOne(UE(6), Then(U(1, 1), t), n);
    n := FoldOne(U(1, 1), t, n);
  }

  lemma SizeBits(t: Script, w: Word) returns (n: Word)
    ensures Fold(SizeScript(FullGeometry(), t), w) == Fold(CropScript(FullGeometry(), t), n)
    ensures n == Word(w.length + 18, 0x40000 * w.number + 0x5855, w.short)
  {
    hide Fold, CropScript;
    n := w;
    n := FoldFour(UE(10), UE(20), U(1, 0), U(1, 1), CropScript(FullGeometry(), t), n);
  }

  lemma CropBits(t: Script, w: Word) returns (n: Word)
    ensures Fold(CropScript(FullGeometry(), t), w) == Fold(t, n)
    ensures n == Word(w.length + 2, 0x4 * w.number + 0x0, w.short)
  {
    hide Fold;
    n := w;
    n := FoldOne(U(1, 0), Then(U(1, 0), t), n);
    n := FoldOne(U(1, 0), t, n);
  }

  lemma VuiFlagBits(t: Script, w: Word) returns (n: Word)
    ensures Fold(Then(FlagOf(true), t), w) == Fold(t, n)
    ensures n == Word(w.length + 1, 0x2 * w.number + 0x1, w.short)
  {
    hide Fold;
    n := w;
    n := FoldOne(U(1, 1), t, n);
  }

  lemma AspectBits(t: Script, w: Word) returns (n: Word)
    ensures Fold(AspectScript(FullVui(), t), w) == Fold(OverscanScript(FullVui(), t), n)
    ensures n == Word(w.length + 41, 0x20000000000 * w.number + 0x1ff12345678, w.short)
  {
    hide Fold, OverscanScript;
    n := w;
    n := FoldFour(U(1, 1), U(8, 255), U(16, 0x1234), U(16, 0x5678), OverscanScript(FullVui(), t), n);
  }

  lemma OverscanBits(t: Script, w: Word) returns (n: Word)
    ensures Fold(OverscanScript(FullVui(), t), w) == Fold(t, n)
    ensures n == Word(w.length + 2, 0x4 * w.number + 0x3, w.short)
  {
    hide Fold;
    n := w;
    n := FoldOne(U(1, 1), Then(U(1, 1), t), n);
    n := FoldOne(U(1, 1), t, n);
  }

  lemma SignalBits(t: Script, w: Word) returns (n: Word)
    ensures Fold(SignalScript(FullVui(), t), w) == Fold(ColourScript(FullVui(), t), n)
    ensures n == Word(w.length + 6, 0x40 * w.number + 0x35, w.short)
  {
    hide Fold, ColourScript;
    n := w;
    n := FoldFour(U(1, 1), U(3, 5), U(1, 0), U(1, 1), ColourScript(FullVui(), t), n);
  }

  lemma ColourBits(t: Script, w: Word) returns (n: Word)
    ensures Fold(ColourScript(FullVui(), t), w) == Fold(t, n)
    ensures n == Word(w.length + 24, 0x1000000 * w.number + 0x90a0b, w.short)
  {
    hide Fold;
    n := w;
    n := FoldOne(U(8, 9), Then(U(8, 10), Then(U(8, 11), t)), n);
    n := FoldOne(U(8, 10), Then(U(8, 11), t), n);
    n := FoldOne(U(8, 11), t, n);
  }

  lemma ChromaBits(t: Script, w: Word) returns (n: Word)
    ensures Fold(ChromaScript(FullVui(), t), w) == Fold(t, n)
    ensures n == Word(w.length + 11, 0x800 * w.number + 0x485, w.short)
  {
    hide Fold;
    n := w;
    n := FoldOne(U(1, 1), Then(UE(3), Then(UE(4), t)), n);
    n := FoldOne(UE(3), Then(UE(4), t), n);
    n := FoldOne(UE(4), t, n);
  }

  lemma TimingBits(t: Script, w: Word) returns (n: Word)
    ensures Fold(TimingScript(FullVui(), t), w) == Fold(t, n)
    ensures n == Word(w.length + 66, 0x40000000000000000 * w.number + 0x2000007d20001d4c1, w.short)
  {
    hide Fold;
    n := w;
    n := FoldFour(U(1, 1), U(32, 0x3e9), U(32, 0xea60), U(1, 1), t, n);
  }

  lemma NalHead(t: Script, w: Word) returns (n: Word)
    requires NalHrd().WellFormed()
    ensures Fold(HrdScript(NalHrd(), t), w) == Fold(CpbScript(NalHrd(), 0, DelayScript(NalHrd(), t)), n)
    ensures n == Word(w.length + 11, 0x800 * w.number + 0x235, w.short)
  {
    hide Fold, CpbScript, DelayScript, Hrd.WellFormed;
    n := w;
    n := FoldOne(UE(1), Then(U(4, 3), Then(U(4, 5), CpbScript(NalHrd(), 0, DelayScript(NalHrd(), t)))), n);
    n := FoldOne(U(4, 3), Then(U(4, 5), CpbScript(NalHrd(), 0, DelayScript(NalHrd(), t))), n);
    n := FoldOne(U(4, 5), CpbScript(NalHrd(), 0, DelayScript(NalHrd(), t)), n);
  }

  lemma NalBuffers(t: Script, w: Word) returns (n: Word)
    requires NalHrd().WellFormed()
    ensures Fold(CpbScript(NalHrd(), 0, t), w) == Fold(t, n)
    ensures n == Word(w.length + 38, 0x4000000000 * w.number + 0x241484c2a, w.short)
  {
    hide Fold, Hrd.WellFormed;
    assert CpbScript(NalHrd(), 2, t) == t;
    n := w;
    n := FoldOne(UE(17), Then(UE(19), Then(U(1, 1), CpbScript(NalHrd(), 1, t))), n);
    n := FoldOne(UE(19), Then(U(1, 1), CpbScript(NalHrd(), 1, t)), n);
    n := FoldOne(U(1, 1), CpbScript(NalHrd(), 1, t), n);
    n := FoldOne(UE(18), Then(UE(20), Then(U(1, 0), CpbScript(NalHrd(), 2, t))), n);
    n := FoldOne(UE(20), Then(U(1, 0), CpbScript(NalHrd(), 2, t)), n);
    n := FoldOne(U(1, 0), CpbScript(NalHrd(), 2, t), n);
  }

  lemma NalDelays(t: Script, w: Word) returns (n: Word)
    ensures Fold(DelayScript(NalHrd(), t), w) == Fold(t, n)
    ensures n == Word(w.length + 20, 0x100000 * w.number + 0xadaf8, w.short)
  {
    hide Fold;
    n := w;
    n := FoldFour(U(5, 21), U(5, 22), U(5, 23), U(5, 24), t, n);
  }

  lemma VclHead(t: Script, w: Word) returns (n: Word)
    requires VclHrd().WellFormed()
    ensures Fold(HrdScript(VclHrd(), t), w) == Fold(CpbScript(VclHrd(), 0, DelayScript(VclHrd(), t)), n)
    ensures n == Word(w.length + 9, 0x200 * w.number + 0x167, w.short)
  {
    hide Fold, CpbScript, DelayScript, Hrd.WellFormed;
    n := w;
    n := FoldOne(UE(0), Then(U(4, 6), Then(U(4, 7), CpbScript(VclHrd(), 0, DelayScript(VclHrd(), t)))), n);
    n := FoldOne(U(4, 6), Then(U(4, 7), CpbScript(VclHrd(), 0, DelayScript(VclHrd(), t))), n);
    n := FoldOne(U(4, 7), CpbScript(VclHrd(), 0, DelayScript(VclHrd(), t)), n);
  }

  lemma VclBuffers(t: Script, w: Word) returns (n: Word)
    requires VclHrd().WellFormed()
    ensures Fold(CpbScript(VclHrd(), 0, t), w) == Fold(t, n)
    ensures n == Word(w.length + 19, 0x80000 * w.number + 0x6836, w.short)
  {
    hide Fold, Hrd.WellFormed;
    assert CpbScript(VclHrd(), 1, t) == t;
    n := w;
    n := FoldOne(UE(25), Then(UE(26), Then(U(1, 0), CpbScript(VclHrd(), 1, t))), n);
    n := FoldOne(UE(26), Then(U(1, 0), CpbScript(VclHrd(), 1, t)), n);
    n := FoldOne(U(1, 0), CpbScript(VclHrd(), 1, t), n);
  }

  lemma VclDelays(t: Script, w: Word) returns (n: Word)
    ensures Fold(DelayScript(VclHrd(), t), w) == Fold(t, n)
    ensures n == Word(w.length + 20, 0x100000 * w.number + 0xdf3be, w.short)
  {
    hide Fold;
    n := w;
    n := FoldFour(U(5, 27), U(5, 28), U(5, 29), U(5, 30), t, n);
  }

  lemma LowDelayBits(t: Script, w: Word) returns (n: Word)
    ensures Fold(LowDelayScript(FullVui(), t), w) == Fold(t, n)
    ensures n == Word(w.length + 1, 0x2 * w.number + 0x1, w.short)
  {
    hide Fold;
    n := w;
    n := FoldOne(U(1, 1), t, n);
  }

  lemma RestrictionBits(t: Script, w: Word) returns (n: Word)
    ensures Fold(RestrictionScript(FullVui(), t), w) == Fold(LimitsScript(FullVui(), t), n)
    ensures n == Word(w.length + 3, 0x8 * w.number + 0x3, w.short)
  {
    hide Fold, LimitsScript;
    n := w;
    n := FoldOne(U(1, 0), Then(U(1, 1), Then(U(1, 1), LimitsScript(FullVui(), t))), n);
    n := FoldOne(U(1, 1), Then(U(1, 1), LimitsScript(FullVui(), t)), n);
    n := FoldOne(U(1, 1), LimitsScript(FullVui(), t), n);
  }

  lemma LimitBits(t: Script, w: Word) returns (n: Word)
    ensures Fold(LimitsScript(FullVui(), t), w) == Fold(t, n)
    ensures n == Word(w.length + 46, 0x400000000000 * w.number + 0x60d1e382011, w.short)
  {
    hide Fold;
    n := w;
    n := FoldFour(UE(11), UE(12), UE(14), UE(13), Then(UE(15), Then(UE(16), t)), n);
    n := FoldOne(UE(15), Then(UE(16), t), n);
    n := FoldOne(UE(16), t, n);
  }

  lemma NumberOfFront()
    ensures BytesNumber(FullFront()) == 0xf46a33144a6ca390c486249246420087424714136a714c7044f16154ffc48d15
  {
    hide BytesNumber;
    NoBytes();
    var front: seq<bv8> := [];
    front := BytesOf8(front, 0xF4, 0x6A, 0x33, 0x14, 0x4A, 0x6C, 0xA3, 0x90);
    front := BytesOf8(front, 0xC4, 0x86, 0x24, 0x92, 0x46, 0x42, 0x00, 0x87);
    front := BytesOf8(front, 0x42, 0x47, 0x14, 0x13, 0x6A, 0x71, 0x4C, 0x70);
    front := BytesOf8(front, 0x44, 0xF1, 0x61, 0x54, 0xFF, 0xC4, 0x8D, 0x15);
    assert front == FullFront();
  }

  lemma NumberOfBytes()
    ensures BytesNumber(FullBytes()) ==
              0xf46a33144a6ca390c486249246420087424714136a714c7044f16154ffc48d159e3d424282e42c00000fa40003a98346a120a4261556d7c6ce1a0db7cefac60d1e382011
  {
    hide BytesNumber, FullFront;
    NumberOfFront();
    var front := FullFront();
    front := BytesOf8(front, 0x9E, 0x3D, 0x42, 0x42, 0x82, 0xE4, 0x2C, 0x00);
    front := BytesOf8(front, 0x00, 0x0F, 0xA4, 0x00, 0x03, 0xA9, 0x83, 0x46);
    front := BytesOf8(front, 0xA1, 0x20, 0xA4, 0x26, 0x15, 0x56, 0xD7, 0xC6);
    front := BytesOf8(front, 0xCE, 0x1A, 0x0D, 0xB7, 0xCE, 0xFA, 0xC6, 0x0D);
    front := BytesOf4(front, 0x1E, 0x38, 0x20, 0x11);
    assert front == FullBytes();
  }

  lemma FidelityBits(t: Script, w: Word) returns (n: Word)
    requires FidelityWellFormed(true, FullFidelity(), FullCoding())
    ensures Fold(FidelityScript(true, FullFidelity(), FullCoding(), t), w) == Fold(t, n)
    ensures n == Word(w.length + 129, 0x200000000000000000000000000000000 * w.number +
              0x4a6ca390c48624924642008742471413, w.short)
  {
    hide Fold, FidelityWellFormed, FidelityScript, ListsScript, Sixteen, Stepped, ZeroList;
    var f, c := FullFidelity(), FullCoding();
    n := DepthBits(f, c, t, w);
    n := FirstList(f, c, t, n);
    n := AbsentLists(f, c, t, n);
    n := WrappingList(f, c, t, n);
    n := FlatList(f, c, t, n);
  }

  lemma NalHrdBits(t: Script, w: Word) returns (n: Word)
    requires NalHrd().WellFormed()
    ensures Fold(HrdScript(NalHrd(), t), w) == Fold(t, n)
    ensures n == Word(w.length + 69, 0x200000000000000000 * w.number + 0x8d4241484c2aadaf8, w.short)
  {
    hide Fold, HrdScript, CpbScript, DelayScript, Hrd.WellFormed, NalHrd;
    n := NalHead(t, w);
    n := NalBuffers(DelayScript(NalHrd(), t), n);
    n := NalDelays(t, n);
  }

  lemma VclHrdBits(t: Script, w: Word) returns (n: Word)
    requires VclHrd().WellFormed()
    ensures Fold(HrdScript(VclHrd(), t), w) == Fold(t, n)
    ensures n == Word(w.length + 48, 0x1000000000000 * w.number + 0xb386836df3be, w.short)
  {
    hide Fold, HrdScript, CpbScript, DelayScript, Hrd.WellFormed, VclHrd;
    n := VclHead(t, w);
    n := VclBuffers(DelayScript(VclHrd(), t), n);
    n := VclDelays(t, n);
  }

  lemma HrdsBits(t: Script, w: Word) returns (n: Word)
    requires NalHrd().WellFormed() && VclHrd().WellFormed() && FullVui().WellFormed()
    ensures Fold(HrdsScript(FullVui(), t), w) == Fold(t, n)
    ensures n == Word(w.length + 120, 0x1000000000000000000000000000000 * w.number +
              0xa3509052130aab6be3670d06dbe77d, w.short)
  {
    hide Fold, HrdScript, Hrd.WellFormed, NalHrd, VclHrd, LowDelayScript, Vui.WellFormed;
    var low := LowDelayScript(FullVui(), t);
    var vcl := VclHrdScript(FullVui(), low);
    n := FoldOne(U(1, 1), HrdScript(NalHrd(), vcl), w);
    n := NalHrdBits(vcl, n);
    n := FoldOne(U(1, 1), HrdScript(VclHrd(), low), n);
    n := VclHrdBits(low, n);
    n := LowDelayBits(t, n);
  }

  lemma VuiBits(t: Script, w: Word) returns (n: Word)
    requires NalHrd().WellFormed() && VclHrd().WellFormed() && FullVui().WellFormed()
    ensures Fold(VuiScript(FullVui(), t), w) == Fold(t, n)
    ensures n == Word(w.length + 319,
              0x80000000000000000000000000000000000000000000000000000000000000000000000000000000 * w.number +
                  0x7fc48d159e3d424282e42c00000fa40003a98346a120a4261556d7c6ce1a0db7cefac60d1e382011, w.short)
  {
    hide Fold, AspectScript, OverscanScript, SignalScript, ColourScript, ChromaScript, TimingScript, HrdsScript;
    hide RestrictionScript, LimitsScript, FullVui, NalHrd, VclHrd, Hrd.WellFormed, Vui.WellFormed;
    var restriction := RestrictionScript(FullVui(), t);
    var hrds := HrdsScript(FullVui(), restriction);
    var timing := TimingScript(FullVui(), hrds);
    var chroma := ChromaScript(FullVui(), timing);
    var signal := SignalScript(FullVui(), chroma);
    n := AspectBits(signal, w);
    n := OverscanBits(signal, n);
    n := SignalBits(chroma, n);
    n := ColourBits(chroma, n);
    n := ChromaBits(timing, n);
    n := TimingBits(hrds, n);
    n := HrdsBits(restriction, n);
    n := RestrictionBits(t, n);
    n := LimitBits(t, n);
  }

  lemma OrderIsWellFormed()
    ensures OrderWellFormed(FullOrder())
  {
  }

  lemma VuiIsWellFormed()
    ensures NalHrd().WellFormed() && VclHrd().WellFormed() && FullVui().WellFormed()
  {
  }

  lemma FullIsWellFormed()
    ensures WellFormed(FullSps(), FullCoding())
  {
    hide FullFidelity, FullCoding, FidelityWellFormed, FullOrder, OrderWellFormed, FullVui, Vui.WellFormed;
    FidelityIsWellFormed();
    OrderIsWellFormed();
    VuiIsWellFormed();
  }

  lemma FoldOfHead(t: Script) returns (n: Word)
    requires WellFormed(FullSps(), FullCoding())
    ensures Fold(HeadScript(FullSps(), FullCoding(), t), Word(0, 0, true)) == Fold(t, n)
    ensures n == Word(198, 0x3d1a8cc5129b28e43121892491908021d091c504da9c531c11, true)
  {
    hide Fold, ConstraintScript, LevelScript, FidelityScript, OrderScript, CycleScript, OffsetsScript, ListsScript,
        Codable;
    hide FidelityWellFormed, OrderWellFormed, GeometryWellFormed, Vui.WellFormed, FullFidelity, FullOrder,
        FullGeometry;
    hide FullCoding, FullVui;
    var order := OrderScript(FullOrder(), t);
    var fidelity := FidelityScript(true, FullFidelity(), FullCoding(), order);
    var level := LevelScript(FullSps(), FullCoding(), fidelity);
    n := ProfileBits(level, Word(0, 0, true));
    n := LevelBits(fidelity, n);
    n := FidelityBits(order, n);
    n := OrderBits(t, n);
    n := CycleBits(t, n);
    n := OffsetBits(t, n);
  }

  lemma FoldOfTail(w: Word) returns (n: Word)
    requires NalHrd().WellFormed() && VclHrd().WellFormed() && FullVui().WellFormed()
    ensures Fold(TailScript(FullSps(), End), w) == n
    ensures n == Word(w.length + 340,
              0x10000000000000000000000000000000000000000000000000000000000000000000000000000000000000 * w.number +
                  0x16154ffc48d159e3d424282e42c00000fa40003a98346a120a4261556d7c6ce1a0db7cefac60d1e382011, w.short)
  {
    hide Fold, SizeScript, CropScript, VuiScript, Vui.WellFormed, Hrd.WellFormed;
    hide FullFidelity, FullOrder, FullGeometry, FullCoding, FullVui, NalHrd, VclHrd;
    var vui := VuiScript(FullVui(), End);
    var flag := Then(FlagOf(true), vui);
    n := SizeBits(flag, w);
    n := CropBits(flag, n);
    n := VuiFlagBits(vui, n);
    n := VuiBits(End, n);
    FoldEnd(n);
  }

  lemma FoldOfSps() returns (n: Word)
    requires WellFormed(FullSps(), FullCoding())
    ensures n == Fold(SpsScript(FullSps(), FullCoding(), End), Word(0, 0, true))
    ensures n == Word(544,
              0xf46a33144a6ca390c486249246420087424714136a714c7044f16154ffc48d159e3d424282e42c00000fa40003a98346a120a4261556d7c6ce1a0db7cefac60d1e382011, true)
  {
    hide Fold, HeadScript, TailScript, WellFormed, FullFidelity, FullOrder, FullGeometry, FullVui, FullCoding;
    hide Vui.WellFormed, Hrd.WellFormed;
    VuiIsWellFormed();
    var tail := TailScript(FullSps(), End);
    n := FoldOfHead(Then(UE(6), Then(FlagOf(true), tail)));
    n := RefFramesBits(tail, n);
    n := FoldOfTail(n);
  }

  /** The code of the parameter set is these bits. */
  lemma BitsOfFull()
    ensures WellFormed(FullSps(), FullCoding()) && SpsScript(FullSps(), FullCoding(), End).Valid()
    ensures SpsScript(FullSps(), FullCoding(), End).Bits() == BufferBits(FullBytes())
    ensures |FullBytes()| == 68
  {
    hide Fold, WellFormed, SpsScript, Script.Bits, Script.Valid, BytesNumber, Value, Pow2;
    FullIsWellFormed();
    var n := FoldOfSps();
    FoldGives(SpsScript(FullSps(), FullCoding(), End), n);
    NumberOfBytes();
    Powers();
    SameBits(SpsScript(FullSps(), FullCoding(), End).Bits(), FullBytes(), 0);
  }

  /** InterpretSPS on these bytes. */
  method InterpretFull() returns (r: int, sps: SeqParameterSet)
    ensures r == 0 && sps.Contents() == FullSps()
  {
    hide WellFormed, SpsScript, Script.Bits, Script.Valid, BufferBits, FullFidelity, FullOrder, FullVui;
    BitsOfFull();
    r, sps := InterpretBytes(FullBytes(), FullSps(), FullCoding());
  }
}
