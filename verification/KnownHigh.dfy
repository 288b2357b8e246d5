// A High profile parameter set with scaling lists and cropping, bit by bit.
module KnownHigh {
  import opened Bits
  import opened BitReader
  import opened ScalingLists
  import opened HrdSyntax
  import opened VuiSyntax
  import opened SpsSyntax
  import opened SpsReader
  import opened KnownCodes
  import opened KnownLists

  /** Scaling lists 0, 2 and 6 are sent: three scales, the default list, and two scales. */
  function HighFidelity(): Fidelity {
    var z := ZeroFidelity();
    Fidelity(
      chroma_format_idc := 1, separate_colour_plane_flag := 0, bit_depth_luma_minus8 := 2,
          bit_depth_chroma_minus8 := 4,
      seq_scaling_matrix_present_flag := true,
      seq_scaling_list_present_flag := z.seq_scaling_list_present_flag[0 := 1][2 := 1][6 := 1],
      scalingList4x4 := z.scalingList4x4[0 := ThreeScales()][2 := Stepped(16, 8, 8)],
      scalingList8x8 := z.scalingList8x8[0 := Stepped(64, 16, 11)],
      useDefaultScalingMatrix4x4Flag := z.useDefaultScalingMatrix4x4Flag[2 := true],
      useDefaultScalingMatrix8x8Flag := z.useDefaultScalingMatrix8x8Flag)
  }

  function ThreeScales(): seq<int> {
    [10, 20, 30, 30,
     30, 30, 30, 30,
     30, 30, 30, 30,
     30, 30, 30, 30]
  }

  function HighOrder(): PicOrder {
    PicOrder(
      log2_max_frame_num_minus4 := 5, pic_order_cnt_type := 0, log2_max_pic_order_cnt_lsb_minus4 := 6,
      delta_pic_order_always_zero_flag := false, offset_for_non_ref_pic := 0, offset_for_top_to_bottom_field := 0,
      num_ref_frames_in_pic_order_cnt_cycle := 0, offset_for_ref_frame := ZeroOffsets())
  }

  function HighGeometry(): Geometry {
    Geometry(
      pic_width_in_mbs_minus1 := 119, pic_height_in_map_units_minus1 := 67, frame_mbs_only_flag := true,
      mb_adaptive_frame_field_flag := false, direct_8x8_inference_flag := true, frame_cropping_flag := true,
      frame_cropping_rect_left_offset := 7, frame_cropping_rect_right_offset := 8,
      frame_cropping_rect_top_offset := 9, frame_cropping_rect_bottom_offset := 10)
  }

  function HighSps(): Sps {
    Sps(
      valid := true, profile_idc := 100, constrained_set0_flag := true, constrained_set1_flag := false,
      constrained_set2_flag := true, constrained_set3_flag := false, level_idc := 40, seq_parameter_set_id := 3,
      fidelity := HighFidelity(), order := HighOrder(), num_ref_frames := 4,
      gaps_in_frame_num_value_allowed_flag := false, geometry := HighGeometry(),
      vui_parameters_present_flag := false, vui := InitialVui())
  }

  function HighCoding(): Coding {
    Coding(reserved_zero_4bits := 5, lossless_qpprime_y_zero_flag := 1, stops := seq(12, _ => 0)[0 := 3][6 := 2])
  }

  /** The parameter set as 193 bits, filled up with zero bits. */
  function HighBytes(): seq<bv8> {
    [0x64, 0xA5, 0x28, 0x22, 0x65, 0xE4, 0x0A, 0x05]
    + [0x01, 0xEA, 0x11, 0x10, 0x80, 0xB0, 0xB8, 0xD3]
    + [0x94, 0x07, 0x80, 0x22, 0x71, 0x02, 0x45, 0x0B]
    + [0x00]
  }

  lemma FidelityIsWellFormed()
    ensures FidelityWellFormed(true, HighFidelity(), HighCoding())
  {
    hide Codable, Stepped, ThreeScales, ZeroList;
    var f, c := HighFidelity(), HighCoding();
    Shapes();
    ThreeScalesAreCodable();
    SteppedIsCodable(16, 8, 8, 0);
    SteppedIsCodable(64, 16, 11, 2);
    forall i | 0 <= i < 12 ensures ListWellFormed(f, c, i) {
      ZeroListAt(i);
    }
  }

  lemma Shapes()
    ensures FidelityShape(HighFidelity(), HighCoding())
  {
  }

  lemma ThreeScalesAreCodable()
    ensures Codable(ThreeScales(), 3)
    ensures Last(ThreeScales(), 0) == 8 && Last(ThreeScales(), 1) == 10 && Last(ThreeScales(), 2) == 20 && Last(
              ThreeScales(), 3) == 30
  {
    assert Scan(16, 0) == 0 && Scan(16, 1) == 1;
    forall j | 3 <= j < 16 ensures Scan(16, j) >= 2 {
    }
  }

  lemma ProfileBits(t: Script, w: Word) returns (n: Word)
    ensures Fold(Then(U(8, 100), ConstraintScript(HighSps(), t)), w) == Fold(t, n)
    ensures n == Word(w.length + 12, 0x1000 * w.number + 0x64a, w.short)
  {
    hide Fold;
    n := w;
    n := FoldFour(U(8, 100), U(1, 1), U(1, 0), U(1, 1), Then(U(1, 0), t), n);
    n := FoldOne(U(1, 0), t, n);
  }

  lemma LevelBits(t: Script, w: Word) returns (n: Word)
    ensures Fold(LevelScript(HighSps(), HighCoding(), t), w) == Fold(t, n)
    ensures n == Word(w.length + 17, 0x20000 * w.number + 0xa504, w.short)
  {
    hide Fold;
    n := w;
    n := FoldOne(U(4, 5), Then(U(8, 40), Then(UE(3), t)), n);
    n := FoldOne(U(8, 40), Then(UE(3), t), n);
    n := FoldOne(UE(3), t, n);
  }

  lemma DepthBits(f: Fidelity, c: Coding, t: Script, w: Word) returns (n: Word)
    requires FidelityWellFormed(true, f, c)
    requires f.chroma_format_idc == 1 && f.bit_depth_luma_minus8 == 2 && f.bit_depth_chroma_minus8 == 4
    requires c.lossless_qpprime_y_zero_flag == 1 && f.seq_scaling_matrix_present_flag
    ensures Fold(FidelityScript(true, f, c, t), w) == Fold(ListsScript(f, c, 0, t), n)
    ensures n == Word(w.length + 13, 0x2000 * w.number + 0x997, w.short)
  {
    hide Fold, ListsScript, ListWellFormed;
    n := w;
    n := FoldFour(UE(1), UE(2), UE(4), U(1, 1), Then(U(1, 1), ListsScript(f, c, 0, t)), n);
    n := FoldOne(U(1, 1), ListsScript(f, c, 0, t), n);
  }

  lemma FirstLists(f: Fidelity, c: Coding, t: Script, w: Word) returns (n: Word)
    requires FidelityWellFormed(true, f, c) && CodedLists(f) == 8
    requires f.seq_scaling_list_present_flag[0] == 1 && f.seq_scaling_list_present_flag[1] == 0
    requires f.scalingList4x4[0] == ThreeScales() && c.stops[0] == 3
    ensures Fold(ListsScript(f, c, 0, t), w) == Fold(ListsScript(f, c, 2, t), n)
    ensures n == Word(w.length + 36, 0x1000000000 * w.number + 0x90281407a, w.short)
  {
    hide Fold, ListScript, ListWellFormed, Codable, Last, Scan, ListsScript;
    hide ThreeScales;
    var next := ListsScript(f, c, 1, t);
    var l := ThreeScales();
    ThreeScalesAreCodable();
    n := FoldPresent(f, c, 0, t, w);
    n := FoldScale(l, 3, 0, 2, next, n);
    n := FoldScale(l, 3, 1, 10, next, n);
    n := FoldScale(l, 3, 2, 10, next, n);
    n := FoldStop(l, 3, -30, next, n);
    n := FoldAbsent(f, c, 1, t, n);
  }

  lemma MiddleLists(f: Fidelity, c: Coding, t: Script, w: Word) returns (n: Word)
    requires FidelityWellFormed(true, f, c) && CodedLists(f) == 8
    requires f.seq_scaling_list_present_flag[2] == 1 && f.seq_scaling_list_present_flag[3] == 0
    requires f.seq_scaling_list_present_flag[4] == 0 && f.seq_scaling_list_present_flag[5] == 0
    requires f.scalingList4x4[2] == Stepped(16, 8, 8) && c.stops[2] == 0
    ensures Fold(ListsScript(f, c, 2, t), w) == Fold(ListsScript(f, c, 6, t), n)
    ensures n == Word(w.length + 13, 0x2000 * w.number + 0x1088, w.short)
  {
    hide Fold, ListScript, ListWellFormed, Codable, Last, Scan, ListsScript;
    LastAtStart(f.scalingList4x4[2]);
    n := FoldPresent(f, c, 2, t, w);
    n := FoldStop(f.scalingList4x4[2], 0, -8, ListsScript(f, c, 3, t), n);
    n := FoldAbsent(f, c, 3, t, n);
    n := FoldAbsent(f, c, 4, t, n);
    n := FoldAbsent(f, c, 5, t, n);
  }

  lemma LastLists(f: Fidelity, c: Coding, t: Script, w: Word) returns (n: Word)
    requires FidelityWellFormed(true, f, c) && CodedLists(f) == 8
    requires f.seq_scaling_list_present_flag[6] == 1 && f.seq_scaling_list_present_flag[7] == 0
    requires f.scalingList8x8[0] == Stepped(64, 16, 11) && c.stops[6] == 2
    ensures Fold(ListsScript(f, c, 6, t), w) == Fold(t, n)
    ensures n == Word(w.length + 27, 0x8000000 * w.number + 0x4202c2e, w.short)
  {
    hide Fold, ListScript, ListWellFormed, Codable, Last, Scan;
    n := FoldPresent(f, c, 6, t, w);
    n := FoldStepped(64, 16, 11, ListsScript(f, c, 7, t), n);
    n := FoldAbsent(f, c, 7, t, n);
  }

  lemma OrderBits(t: Script, w: Word) returns (n: Word)
    ensures Fold(OrderScript(HighOrder(), t), w) == Fold(t, n)
    ensures n == Word(w.length + 11, 0x800 * w.number + 0x1a7, w.short)
  {
    hide Fold;
    n := w;
    n := FoldOne(UE(5), Then(UE(0), Then(UE(6), t)), n);
    n := FoldOne(UE(0), Then(UE(6), t), n);
    n := FoldOne(UE(6), t, n);
  }

  lemma RefFramesBits(t: Script, w: Word) returns (n: Word)
    ensures Fold(Then(UE(4), Then(FlagOf(false), t)), w) == Fold(t, n)
    ensures n == Word(w.length + 6, 0x40 * w.number + 0xa, w.short)
  {
    hide Fold;
    n := w;
    n := FoldOne(UE(4), Then(U(1, 0), t), n);
    n := FoldOne(U(1, 0), t, n);
  }

  lemma SizeBits(t: Script, w: Word) returns (n: Word)
    ensures Fold(SizeScript(HighGeometry(), t), w) == Fold(CropScript(HighGeometry(), t), n)
    ensures n == Word(w.length + 27, 0x8000000 * w.number + 0x1e0089, w.short)
  {
    hide Fold, CropScript;
    n := w;
    n := FoldOne(UE(119), Then(UE(67), Then(U(1, 1), CropScript(HighGeometry(), t))), n);
    n := FoldOne(UE(67), Then(U(1, 1), CropScript(HighGeometry(), t)), n);
    n := FoldOne(U(1, 1), CropScript(HighGeometry(), t), n);
  }

  lemma CropBits(t: Script, w: Word) returns (n: Word)
    ensures Fold(CropScript(HighGeometry(), t), w) == Fold(t, n)
    ensures n == Word(w.length + 30, 0x40000000 * w.number + 0x3102450b, w.short)
  {
    hide Fold;
    n := w;
    n := FoldFour(U(1, 1), U(1, 1), UE(7), UE(8), Then(UE(9), Then(UE(10), t)), n);
    n := FoldOne(UE(9), Then(UE(10), t), n);
    n := FoldOne(UE(10), t, n);
  }

  lemma VuiFlagBits(t: Script, w: Word) returns (n: Word)
    ensures Fold(Then(FlagOf(false), t), w) == Fold(t, n)
    ensures n == Word(w.length + 1, 0x2 * w.number + 0x0, w.short)
  {
    hide Fold;
    n := w;
    n := FoldOne(U(1, 0), t, n);
  }

  lemma NumberOfBytes()
    ensures BytesNumber(HighBytes()) == 0x64a5282265e40a0501ea111080b0b8d3940780227102450b00
  {
    hide BytesNumber;
    NoBytes();
    var front: seq<bv8> := [];
    front := BytesOf8(front, 0x64, 0xA5, 0x28, 0x22, 0x65, 0xE4, 0x0A, 0x05);
    front := BytesOf8(front, 0x01, 0xEA, 0x11, 0x10, 0x80, 0xB0, 0xB8, 0xD3);
    front := BytesOf8(front, 0x94, 0x07, 0x80, 0x22, 0x71, 0x02, 0x45, 0x0B);
    front := BytesOf1(front, 0x00);
    assert front == HighBytes();
  }

  lemma FidelityBits(t: Script, w: Word) returns (n: Word)
    requires FidelityWellFormed(true, HighFidelity(), HighCoding())
    ensures Fold(FidelityScript(true, HighFidelity(), HighCoding(), t), w) == Fold(t, n)
    ensures n == Word(w.length + 89, 0x20000000000000000000000 * w.number + 0x99790281407a8444202c2e, w.short)
  {
    hide Fold, FidelityWellFormed, FidelityScript, ListsScript, ThreeScales, Stepped, ZeroList;
    var f, c := HighFidelity(), HighCoding();
    n := DepthBits(f, c, t, w);
    n := FirstLists(f, c, t, n);
    n := MiddleLists(f, c, t, n);
    n := LastLists(f, c, t, n);
  }

  lemma FoldOfSps() returns (n: Word)
    requires WellFormed(HighSps(), HighCoding())
    ensures n == Fold(SpsScript(HighSps(), HighCoding(), End), Word(0, 0, true))
    ensures n == Word(193, 0xc94a5044cbc8140a03d42221016171a7280f0044e2048a16, true)
  {
    hide Fold, ConstraintScript, LevelScript, FidelityScript, OrderScript, SizeScript, ListsScript, Codable;
    hide FidelityWellFormed, OrderWellFormed, GeometryWellFormed, Vui.WellFormed, HighFidelity, HighOrder,
        HighGeometry;
    hide HighCoding, InitialVui;
    var flag := Then(FlagOf(false), End);
    var refFrames := Then(UE(4), Then(FlagOf(false), SizeScript(HighGeometry(), flag)));
    var order := OrderScript(HighOrder(), refFrames);
    var fidelity := FidelityScript(true, HighFidelity(), HighCoding(), order);
    var level := LevelScript(HighSps(), HighCoding(), fidelity);
    n := ProfileBits(level, Word(0, 0, true));
    n := LevelBits(fidelity, n);
    n := FidelityBits(order, n);
    n := OrderBits(refFrames, n);
    n := RefFramesBits(SizeScript(HighGeometry(), flag), n);
    n := SizeBits(flag, n);
    n := CropBits(flag, n);
    n := VuiFlagBits(End, n);
    FoldEnd(n);
  }

  lemma HighIsWellFormed()
    ensures WellFormed(HighSps(), HighCoding())
  {
    hide HighFidelity, HighCoding, FidelityWellFormed;
    FidelityIsWellFormed();
  }

  /** The code of the parameter set is these bits. */
  lemma BitsOfHigh()
    ensures WellFormed(HighSps(), HighCoding()) && SpsScript(HighSps(), HighCoding(), End).Valid()
    ensures SpsScript(HighSps(), HighCoding(), End).Bits() == BufferBits(HighBytes())[..193]
    ensures |SpsScript(HighSps(), HighCoding(), End).Bits()| == 193 && |HighBytes()| == 25
  {
    hide Fold, WellFormed, SpsScript, Script.Bits, Script.Valid, BytesNumber, Value, BufferBits, Pow2;
    HighIsWellFormed();
    var n := FoldOfSps();
    FoldGives(SpsScript(HighSps(), HighCoding(), End), n);
    NumberOfBytes();
    Powers();
    SameBits(SpsScript(HighSps(), HighCoding(), End).Bits(), HighBytes(), 7);
  }

  /** InterpretSPS on these bytes. */
  method InterpretHigh() returns (r: int, sps: SeqParameterSet)
    ensures r == 0 && sps.Contents() == HighSps()
    ensures sps.profile_idc == 100 && sps.pic_width_in_mbs_minus1 == 119 && sps.pic_height_in_map_units_minus1 == 67
  {
    hide WellFormed, SpsScript, Script.Bits, Script.Valid, BufferBits, HighFidelity, HighOrder;
    BitsOfHigh();
    r, sps := InterpretBytes(HighBytes(), HighSps(), HighCoding());
  }
}
