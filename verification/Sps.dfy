// Sequence parameter sets: section 7.3.2.1.1 of ITU-T H.264.
module SpsSyntax {
  import opened Bits
  import opened BitReader
  import opened ScalingLists
  import opened HrdSyntax
  import opened VuiSyntax

  const MAXnum_ref_frames_in_pic_order_cnt_cycle: nat := 256
  const YUV444: nat := 3

  predicate KnownProfile(p: nat) {
    p == 66 || p == 77 || p == 88 || HighProfile(p)
  }

  /** The profiles with the fidelity range extensions: High, High 10, High 4:2:2, High 4:4:4, CAVLC 4:4:4. */
  predicate HighProfile(p: nat) {
    p == 100 || p == 110 || p == 122 || p == 244 || p == 44
  }

  datatype Sps = Sps(
    valid: bool,
    profile_idc: nat,
    constrained_set0_flag: bool,
    constrained_set1_flag: bool,
    constrained_set2_flag: bool,
    constrained_set3_flag: bool,
    level_idc: nat,
    seq_parameter_set_id: nat,
    fidelity: Fidelity,
    order: PicOrder,
    num_ref_frames: nat,
    gaps_in_frame_num_value_allowed_flag: bool,
    geometry: Geometry,
    vui_parameters_present_flag: bool,
    vui: Vui)

  /** The fields of the fidelity range extensions. */
  datatype Fidelity = Fidelity(
    chroma_format_idc: nat,
    separate_colour_plane_flag: nat,
    bit_depth_luma_minus8: nat,
    bit_depth_chroma_minus8: nat,
    seq_scaling_matrix_present_flag: bool,
    seq_scaling_list_present_flag: seq<nat>,
    scalingList4x4: seq<seq<int>>,
    scalingList8x8: seq<seq<int>>,
    useDefaultScalingMatrix4x4Flag: seq<bool>,
    useDefaultScalingMatrix8x8Flag: seq<bool>)

  /** The fields of frame numbering and picture order count. */
  datatype PicOrder = PicOrder(
    log2_max_frame_num_minus4: nat,
    pic_order_cnt_type: nat,
    log2_max_pic_order_cnt_lsb_minus4: nat,
    delta_pic_order_always_zero_flag: bool,
    offset_for_non_ref_pic: int,
    offset_for_top_to_bottom_field: int,
    num_ref_frames_in_pic_order_cnt_cycle: nat,
    offset_for_ref_frame: seq<int>)

  /** The fields of picture size and cropping. */
  datatype Geometry = Geometry(
    pic_width_in_mbs_minus1: nat,
    pic_height_in_map_units_minus1: nat,
    frame_mbs_only_flag: bool,
    mb_adaptive_frame_field_flag: bool,
    direct_8x8_inference_flag: bool,
    frame_cropping_flag: bool,
    frame_cropping_rect_left_offset: nat,
    frame_cropping_rect_right_offset: nat,
    frame_cropping_rect_top_offset: nat,
    frame_cropping_rect_bottom_offset: nat)

  /** What an encoder chooses and the decoder does not keep. */
  datatype Coding = Coding(
    reserved_zero_4bits: nat,
    lossless_qpprime_y_zero_flag: nat,
    stops: seq<nat>)                    // after how many coefficients each scaling list sends a zero next scale

  // ---------------------------------------------------------------- fidelity range extensions

  function ListCount(chroma_format_idc: nat): nat {
    if chroma_format_idc != YUV444 then 8 else 12
  }

  /** The number of lists a coded SPS carries. */
  function CodedLists(f: Fidelity): nat {
    if f.seq_scaling_matrix_present_flag then ListCount(f.chroma_format_idc) else 0
  }

  predicate FidelityShape(f: Fidelity, c: Coding) {
    && |f.seq_scaling_list_present_flag| == |c.stops| == 12
    && |f.scalingList4x4| == |f.scalingList8x8| == 6
    && |f.useDefaultScalingMatrix4x4Flag| == |f.useDefaultScalingMatrix8x8Flag| == 6
    && (forall l <- f.scalingList4x4 :: |l| == 16)
    && (forall l <- f.scalingList8x8 :: |l| == 64)
  }

  /** The i-th scaling list, six of 4x4 and six of 8x8. */
  function ListAt(f: Fidelity, i: nat): seq<int>
    requires |f.scalingList4x4| == |f.scalingList8x8| == 6 && i < 12
  {
    if i < 6 then f.scalingList4x4[i] else f.scalingList8x8[i - 6]
  }

  function DefaultAt(f: Fidelity, i: nat): bool
    requires |f.useDefaultScalingMatrix4x4Flag| == |f.useDefaultScalingMatrix8x8Flag| == 6 && i < 12
  {
    if i < 6 then f.useDefaultScalingMatrix4x4Flag[i] else f.useDefaultScalingMatrix8x8Flag[i - 6]
  }

  function ZeroList(i: nat): seq<int> {
    seq(if i < 6 then 16 else 64, _ => 0)
  }

  /** The i-th list is codable when it is sent, and zero when it is not. */
  predicate ListWellFormed(f: Fidelity, c: Coding, i: nat)
    requires FidelityShape(f, c) && i < 12
  {
    && f.seq_scaling_list_present_flag[i] <= 1
    && if i < CodedLists(f) && f.seq_scaling_list_present_flag[i] == 1
       then Codable(ListAt(f, i), c.stops[i]) && DefaultAt(f, i) == (c.stops[i] == 0)
       else ListAt(f, i) == ZeroList(i) && !DefaultAt(f, i)
  }

  predicate FidelityWellFormed(high: bool, f: Fidelity, c: Coding) {
    && FidelityShape(f, c)
    && (forall i :: 0 <= i < 12 ==> ListWellFormed(f, c, i))
    && (forall i :: CodedLists(f) <= i < 12 ==> f.seq_scaling_list_present_flag[i] == 0)
    && (!high ==> f == ZeroFidelity().(chroma_format_idc := 1))
    && (f.chroma_format_idc != YUV444 ==> f.separate_colour_plane_flag == 0)
  }

  function ZeroFidelity(): Fidelity {
    Fidelity(0, 0, 0, 0, false, seq(12, _ => 0),
             seq(6, _ => ZeroList(0)), seq(6, _ => ZeroList(6)), seq(6, _ => false), seq(6, _ => false))
  }

  function FidelityScript(high: bool, f: Fidelity, c: Coding, rest: Script): Script
    requires FidelityWellFormed(high, f, c)
  {
    if !high then rest else
    Then(UE(f.chroma_format_idc),
    if f.chroma_format_idc == YUV444 then Then(U(1, f.separate_colour_plane_flag), DepthScript(f, c, rest))
    else DepthScript(f, c, rest))
  }

  function DepthScript(f: Fidelity, c: Coding, rest: Script): Script
    requires FidelityShape(f, c) && forall i :: 0 <= i < 12 ==> ListWellFormed(f, c, i)
  {
    Then(UE(f.bit_depth_luma_minus8),
    Then(UE(f.bit_depth_chroma_minus8),
    Then(U(1, c.lossless_qpprime_y_zero_flag),
    Then(FlagOf(f.seq_scaling_matrix_present_flag),
    ListsScript(f, c, 0, rest)))))
  }

  /** The scaling lists from the i-th on. */
  function ListsScript(f: Fidelity, c: Coding, i: nat, rest: Script): Script
    requires FidelityShape(f, c) && i <= CodedLists(f) <= 12
    requires forall k :: 0 <= k < 12 ==> ListWellFormed(f, c, k)
    decreases CodedLists(f) - i
  {
    if i == CodedLists(f) then rest else
    assert ListWellFormed(f, c, i);
    Then(U(1, f.seq_scaling_list_present_flag[i]),
    if f.seq_scaling_list_present_flag[i] == 1
    then ListScript(ListAt(f, i), c.stops[i], 0, ListsScript(f, c, i + 1, rest))
    else ListsScript(f, c, i + 1, rest))
  }

  // ---------------------------------------------------------------- picture order count

  predicate OrderWellFormed(o: PicOrder) {
    && |o.offset_for_ref_frame| == MAXnum_ref_frames_in_pic_order_cnt_cycle
    && o.num_ref_frames_in_pic_order_cnt_cycle <= MAXnum_ref_frames_in_pic_order_cnt_cycle
    && (o.pic_order_cnt_type != 0 ==> o.log2_max_pic_order_cnt_lsb_minus4 == 0)
    && (o.pic_order_cnt_type != 1 ==>
          && !o.delta_pic_order_always_zero_flag
          && o.offset_for_non_ref_pic == o.offset_for_top_to_bottom_field == 0
          && o.num_ref_frames_in_pic_order_cnt_cycle == 0)
    && (forall i :: o.num_ref_frames_in_pic_order_cnt_cycle <= i < MAXnum_ref_frames_in_pic_order_cnt_cycle ==>
          o.offset_for_ref_frame[i] == 0)
  }

  function ZeroOffsets(): seq<int> {
    seq(MAXnum_ref_frames_in_pic_order_cnt_cycle, _ => 0)
  }

  function ZeroOrder(): PicOrder {
    PicOrder(0, 0, 0, false, 0, 0, 0, ZeroOffsets())
  }

  function OrderScript(o: PicOrder, rest: Script): Script
    requires OrderWellFormed(o)
  {
    Then(UE(o.log2_max_frame_num_minus4),
    Then(UE(o.pic_order_cnt_type),
    if o.pic_order_cnt_type == 0 then Then(UE(o.log2_max_pic_order_cnt_lsb_minus4), rest)
    else if o.pic_order_cnt_type == 1 then CycleScript(o, rest)
    else rest))
  }

  function CycleScript(o: PicOrder, rest: Script): Script
    requires OrderWellFormed(o)
  {
    Then(FlagOf(o.delta_pic_order_always_zero_flag),
    Then(SE(o.offset_for_non_ref_pic),
    Then(SE(o.offset_for_top_to_bottom_field),
    Then(UE(o.num_ref_frames_in_pic_order_cnt_cycle),
    OffsetsScript(o, 0, rest)))))
  }

  function OffsetsScript(o: PicOrder, i: nat, rest: Script): Script
    requires OrderWellFormed(o) && i <= o.num_ref_frames_in_pic_order_cnt_cycle
    decreases o.num_ref_frames_in_pic_order_cnt_cycle - i
  {
    if i == o.num_ref_frames_in_pic_order_cnt_cycle then rest else
    Then(SE(o.offset_for_ref_frame[i]), OffsetsScript(o, i + 1, rest))
  }

  // ---------------------------------------------------------------- picture size and cropping

  predicate GeometryWellFormed(g: Geometry) {
    && (g.frame_mbs_only_flag ==> !g.mb_adaptive_frame_field_flag)
    && (!g.frame_cropping_flag ==>
          && g.frame_cropping_rect_left_offset == g.frame_cropping_rect_right_offset == 0
          && g.frame_cropping_rect_top_offset == g.frame_cropping_rect_bottom_offset == 0)
  }

  function ZeroGeometry(): Geometry {
    Geometry(0, 0, false, false, false, false, 0, 0, 0, 0)
  }

  function SizeScript(g: Geometry, rest: Script): Script {
    Then(UE(g.pic_width_in_mbs_minus1),
    Then(UE(g.pic_height_in_map_units_minus1),
    Then(FlagOf(g.frame_mbs_only_flag),
    if g.frame_mbs_only_flag then CropScript(g, rest)
    else Then(FlagOf(g.mb_adaptive_frame_field_flag), CropScript(g, rest)))))
  }

  function CropScript(g: Geometry, rest: Script): Script {
    Then(FlagOf(g.direct_8x8_inference_flag),
    Then(FlagOf(g.frame_cropping_flag),
    if !g.frame_cropping_flag then rest else
    Then(UE(g.frame_cropping_rect_left_offset),
    Then(UE(g.frame_cropping_rect_right_offset),
    Then(UE(g.frame_cropping_rect_top_offset),
    Then(UE(g.frame_cropping_rect_bottom_offset), rest))))))
  }

  // ---------------------------------------------------------------- the whole parameter set

  /** A sequence parameter set that InterpretSPS can produce: fields that are not coded have their defaults. */
  predicate WellFormed(v: Sps, c: Coding) {
    && v.valid
    && KnownProfile(v.profile_idc)
    && FidelityWellFormed(HighProfile(v.profile_idc), v.fidelity, c)
    && OrderWellFormed(v.order)
    && GeometryWellFormed(v.geometry)
    && v.vui.WellFormed()
    && (!v.vui_parameters_present_flag ==> v.vui == InitialVui())
  }

  /** The elements before num_ref_frames. */
  function HeadScript(v: Sps, c: Coding, rest: Script): Script
    requires WellFormed(v, c)
  {
    Then(U(8, v.profile_idc),
    ConstraintScript(v, LevelScript(v, c,
    FidelityScript(HighProfile(v.profile_idc), v.fidelity, c,
    OrderScript(v.order, rest)))))
  }

  function ConstraintScript(v: Sps, rest: Script): Script {
    Then(FlagOf(v.constrained_set0_flag),
    Then(FlagOf(v.constrained_set1_flag),
    Then(FlagOf(v.constrained_set2_flag),
    Then(FlagOf(v.constrained_set3_flag), rest))))
  }

  function LevelScript(v: Sps, c: Coding, rest: Script): Script {
    Then(U(4, c.reserved_zero_4bits),
    Then(U(8, v.level_idc),
    Then(UE(v.seq_parameter_set_id), rest)))
  }

  /** The elements after gaps_in_frame_num_value_allowed_flag. */
  function TailScript(v: Sps, rest: Script): Script
    requires v.vui.WellFormed()
  {
    SizeScript(v.geometry,
    Then(FlagOf(v.vui_parameters_present_flag),
    if v.vui_parameters_present_flag then VuiScript(v.vui, rest) else rest))
  }

  /** The syntax elements of seq_parameter_set_data( ), followed by rest. */
  function SpsScript(v: Sps, c: Coding, rest: Script): Script
    requires WellFormed(v, c)
  {
    HeadScript(v, c,
    Then(UE(v.num_ref_frames),
    Then(FlagOf(v.gaps_in_frame_num_value_allowed_flag),
    TailScript(v, rest))))
  }

  // ---------------------------------------------------------------- the head does not depend on what follows it

  lemma {:induction false} AppendAssociative(a: Script, b: Script, c: Script)
    ensures a.Append(b).Append(c) == a.Append(b.Append(c))
  {
    if a.Then? {
      AppendAssociative(a.tail, b, c);
    }
  }

  lemma Append2(a: Element, b: Element, t: Script, rest: Script)
    ensures Then(a, Then(b, t)).Append(rest) == Then(a, Then(b, t.Append(rest)))
  {
    assert Then(b, t).Append(rest) == Then(b, t.Append(rest));
  }

  lemma Append4(a: Element, b: Element, c: Element, d: Element, t: Script, rest: Script)
    ensures Then(a, Then(b, Then(c, Then(d, t)))).Append(rest) == Then(a, Then(b, Then(c, Then(d, t.Append(rest)))))
  {
    Append2(a, b, Then(c, Then(d, t)), rest);
    Append2(c, d, t, rest);
  }

  lemma {:induction false} ListAppends(l: seq<int>, stop: nat, j: nat, rest: Script)
    requires Codable(l, stop) && j <= stop
    ensures ListScript(l, stop, j, rest) == ListScript(l, stop, j, End).Append(rest)
    decreases stop - j
  {
    hide Codable, Delta, Last;
    if j < stop {
      ListAppends(l, stop, j + 1, rest);
    }
  }

  lemma {:induction false} ListsAppend(f: Fidelity, c: Coding, i: nat, rest: Script)
    requires FidelityShape(f, c) && i <= CodedLists(f) <= 12
    requires forall k :: 0 <= k < 12 ==> ListWellFormed(f, c, k)
    ensures ListsScript(f, c, i, rest) == ListsScript(f, c, i, End).Append(rest)
    decreases CodedLists(f) - i
  {
    hide Codable, ListScript;
    if i < CodedLists(f) {
      ListsAppend(f, c, i + 1, rest);
      assert ListWellFormed(f, c, i);
      if f.seq_scaling_list_present_flag[i] == 1 {
        var a := ListsScript(f, c, i + 1, End);
        ListAppends(ListAt(f, i), c.stops[i], 0, a.Append(rest));
        ListAppends(ListAt(f, i), c.stops[i], 0, a);
        AppendAssociative(ListScript(ListAt(f, i), c.stops[i], 0, End), a, rest);
      }
    }
  }

  lemma FidelityAppends(high: bool, f: Fidelity, c: Coding, rest: Script)
    requires FidelityWellFormed(high, f, c)
    ensures FidelityScript(high, f, c, rest) == FidelityScript(high, f, c, End).Append(rest)
  {
    hide ListsScript, ListWellFormed;
    ListsAppend(f, c, 0, rest);
    Append4(UE(f.bit_depth_luma_minus8), UE(f.bit_depth_chroma_minus8), U(1, c.lossless_qpprime_y_zero_flag),
            FlagOf(f.seq_scaling_matrix_present_flag), ListsScript(f, c, 0, End), rest);
    Append2(UE(f.chroma_format_idc), U(1, f.separate_colour_plane_flag), DepthScript(f, c, End), rest);
  }

  lemma {:induction false} OffsetsAppend(o: PicOrder, i: nat, rest: Script)
    requires OrderWellFormed(o) && i <= o.num_ref_frames_in_pic_order_cnt_cycle
    ensures OffsetsScript(o, i, rest) == OffsetsScript(o, i, End).Append(rest)
    decreases o.num_ref_frames_in_pic_order_cnt_cycle - i
  {
    if i < o.num_ref_frames_in_pic_order_cnt_cycle {
      OffsetsAppend(o, i + 1, rest);
    }
  }

  lemma OrderAppends(o: PicOrder, rest: Script)
    requires OrderWellFormed(o)
    ensures OrderScript(o, rest) == OrderScript(o, End).Append(rest)
  {
    hide OffsetsScript, OrderWellFormed;
    OffsetsAppend(o, 0, rest);
    Append4(FlagOf(o.delta_pic_order_always_zero_flag), SE(o.offset_for_non_ref_pic),
            SE(o.offset_for_top_to_bottom_field), UE(o.num_ref_frames_in_pic_order_cnt_cycle),
            OffsetsScript(o, 0, End), rest);
    var t := if o.pic_order_cnt_type == 0 then Then(UE(o.log2_max_pic_order_cnt_lsb_minus4), End)
             else if o.pic_order_cnt_type == 1 then CycleScript(o, End) else End;
    Append2(UE(o.log2_max_frame_num_minus4), UE(o.pic_order_cnt_type), t, rest);
  }

  lemma LevelAppends(v: Sps, c: Coding, t: Script, rest: Script)
    ensures ConstraintScript(v, LevelScript(v, c, t.Append(rest))) == ConstraintScript(v, LevelScript(v, c, t)).Append(rest)
  {
    Append4(FlagOf(v.constrained_set0_flag), FlagOf(v.constrained_set1_flag), FlagOf(v.constrained_set2_flag),
            FlagOf(v.constrained_set3_flag), LevelScript(v, c, t), rest);
    Append2(U(4, c.reserved_zero_4bits), U(8, v.level_idc), Then(UE(v.seq_parameter_set_id), t), rest);
  }

  lemma HeadAppends(v: Sps, c: Coding, rest: Script)
    requires WellFormed(v, c)
    ensures HeadScript(v, c, rest) == HeadScript(v, c, End).Append(rest)
  {
    hide FidelityScript, OrderScript, ConstraintScript, LevelScript, FidelityWellFormed, OrderWellFormed, Vui.WellFormed;
    var high := HighProfile(v.profile_idc);
    var orders := OrderScript(v.order, End);
    OrderAppends(v.order, rest);
    FidelityAppends(high, v.fidelity, c, orders.Append(rest));
    FidelityAppends(high, v.fidelity, c, orders);
    AppendAssociative(FidelityScript(high, v.fidelity, c, End), orders, rest);
    LevelAppends(v, c, FidelityScript(high, v.fidelity, c, orders), rest);
  }

  // ---------------------------------------------------------------- nor does the rest

  lemma {:induction false} CpbAppends(h: Hrd, i: nat, t: Script, rest: Script)
    requires h.WellFormed() && i <= h.cpb_cnt_minus1 + 1
    ensures CpbScript(h, i, t.Append(rest)) == CpbScript(h, i, t).Append(rest)
    decreases h.cpb_cnt_minus1 + 1 - i
  {
    if i <= h.cpb_cnt_minus1 {
      var next := CpbScript(h, i + 1, t);
      CpbAppends(h, i + 1, t, rest);
      Append2(UE(h.bit_rate_value_minus1[i]), UE(h.cpb_size_value_minus1[i]), Then(U(1, h.cbr_flag[i]), next), rest);
    }
  }

  lemma HrdAppends(h: Hrd, t: Script, rest: Script)
    requires h.WellFormed()
    ensures HrdScript(h, t.Append(rest)) == HrdScript(h, t).Append(rest)
  {
    hide CpbScript, Hrd.WellFormed;
    Append4(U(5, h.initial_cpb_removal_delay_length_minus1), U(5, h.cpb_removal_delay_length_minus1),
            U(5, h.dpb_output_delay_length_minus1), U(5, h.time_offset_length), t, rest);
    CpbAppends(h, 0, DelayScript(h, t), rest);
    Append2(UE(h.cpb_cnt_minus1), U(4, h.bit_rate_scale),
            Then(U(4, h.cpb_size_scale), CpbScript(h, 0, DelayScript(h, t))), rest);
  }

  lemma AspectAppends(v: Vui, t: Script, rest: Script)
    ensures AspectScript(v, t.Append(rest)) == AspectScript(v, t).Append(rest)
  {
    var next := OverscanScript(v, t);
    Append2(FlagOf(v.overscan_info_present_flag), FlagOf(v.overscan_appropriate_flag), t, rest);
    assert OverscanScript(v, t.Append(rest)) == next.Append(rest);
    Append4(FlagOf(v.aspect_ratio_info_present_flag), U(8, v.aspect_ratio_idc), U(16, v.sar_width), U(16, v.sar_height),
            next, rest);
    Append2(FlagOf(v.aspect_ratio_info_present_flag), U(8, v.aspect_ratio_idc), next, rest);
  }

  lemma SignalAppends(v: Vui, t: Script, rest: Script)
    ensures SignalScript(v, t.Append(rest)) == SignalScript(v, t).Append(rest)
  {
    Append2(U(8, v.colour_primaries), U(8, v.transfer_characteristics), Then(U(8, v.matrix_coefficients), t), rest);
    var next := if v.colour_description_present_flag then ColourScript(v, t) else t;
    Append4(FlagOf(v.video_signal_type_present_flag), U(3, v.video_format), FlagOf(v.video_full_range_flag),
            FlagOf(v.colour_description_present_flag), next, rest);
  }

  lemma ClockAppends(v: Vui, t: Script, rest: Script)
    ensures ClockScript(v, t.Append(rest)) == ClockScript(v, t).Append(rest)
  {
    Append4(FlagOf(v.timing_info_present_flag), U(32, v.num_units_in_tick), U(32, v.time_scale),
            FlagOf(v.fixed_frame_rate_flag), t, rest);
    var next := TimingScript(v, t);
    assert TimingScript(v, t.Append(rest)) == next.Append(rest);
    Append2(FlagOf(v.chroma_location_info_present_flag), UE(v.chroma_sample_loc_type_top_field),
            Then(UE(v.chroma_sample_loc_type_bottom_field), next), rest);
  }

  lemma HrdsAppend(v: Vui, t: Script, rest: Script)
    requires v.WellFormed()
    ensures HrdsScript(v, t.Append(rest)) == HrdsScript(v, t).Append(rest)
  {
    var low := LowDelayScript(v, t);
    var vcl := VclHrdScript(v, low);
    hide HrdScript;
    if v.vcl_hrd_parameters_present_flag {
      HrdAppends(v.vcl_hrd_parameters, low, rest);
    }
    if v.nal_hrd_parameters_present_flag {
      HrdAppends(v.nal_hrd_parameters, vcl, rest);
    }
  }

  lemma RestrictionAppends(v: Vui, t: Script, rest: Script)
    ensures RestrictionScript(v, t.Append(rest)) == RestrictionScript(v, t).Append(rest)
  {
    var last := Then(UE(v.num_reorder_frames), Then(UE(v.max_dec_frame_buffering), t));
    Append2(UE(v.num_reorder_frames), UE(v.max_dec_frame_buffering), t, rest);
    Append4(UE(v.max_bytes_per_pic_denom), UE(v.max_bits_per_mb_denom), UE(v.log2_max_mv_length_horizontal),
            UE(v.log2_max_mv_length_vertical), last, rest);
    Append2(FlagOf(v.pic_struct_present_flag), FlagOf(v.bitstream_restriction_flag),
            Then(FlagOf(v.motion_vectors_over_pic_boundaries_flag), LimitsScript(v, t)), rest);
    Append2(FlagOf(v.pic_struct_present_flag), FlagOf(v.bitstream_restriction_flag), t, rest);
  }

  lemma VuiAppends(v: Vui, t: Script, rest: Script)
    requires v.WellFormed()
    ensures VuiScript(v, t.Append(rest)) == VuiScript(v, t).Append(rest)
  {
    hide AspectScript, SignalScript, ClockScript, HrdsScript, RestrictionScript, Vui.WellFormed;
    RestrictionAppends(v, t, rest);
    HrdsAppend(v, RestrictionScript(v, t), rest);
    ClockAppends(v, HrdsScript(v, RestrictionScript(v, t)), rest);
    SignalAppends(v, ClockScript(v, HrdsScript(v, RestrictionScript(v, t))), rest);
    AspectAppends(v, SignalScript(v, ClockScript(v, HrdsScript(v, RestrictionScript(v, t)))), rest);
  }

  lemma CropAppends(g: Geometry, t: Script, rest: Script)
    ensures CropScript(g, t.Append(rest)) == CropScript(g, t).Append(rest)
  {
    Append4(UE(g.frame_cropping_rect_left_offset), UE(g.frame_cropping_rect_right_offset),
            UE(g.frame_cropping_rect_top_offset), UE(g.frame_cropping_rect_bottom_offset), t, rest);
    var next := if !g.frame_cropping_flag then t else CropScript(g, t).tail.tail;
    Append2(FlagOf(g.direct_8x8_inference_flag), FlagOf(g.frame_cropping_flag), next, rest);
  }

  lemma SizeAppends(g: Geometry, t: Script, rest: Script)
    ensures SizeScript(g, t.Append(rest)) == SizeScript(g, t).Append(rest)
  {
    hide CropScript;
    CropAppends(g, t, rest);
    Append4(UE(g.pic_width_in_mbs_minus1), UE(g.pic_height_in_map_units_minus1), FlagOf(g.frame_mbs_only_flag),
            FlagOf(g.mb_adaptive_frame_field_flag), CropScript(g, t), rest);
    Append2(UE(g.pic_width_in_mbs_minus1), UE(g.pic_height_in_map_units_minus1),
            Then(FlagOf(g.frame_mbs_only_flag), CropScript(g, t)), rest);
  }

  lemma TailAppends(v: Sps, rest: Script)
    requires v.vui.WellFormed()
    ensures TailScript(v, rest) == TailScript(v, End).Append(rest)
  {
    hide SizeScript, VuiScript, Vui.WellFormed;
    VuiAppends(v.vui, End, rest);
    assert End.Append(rest) == rest;
    var next := Then(FlagOf(v.vui_parameters_present_flag),
                     if v.vui_parameters_present_flag then VuiScript(v.vui, End) else End);
    SizeAppends(v.geometry, next, rest);
  }

  /** The code of a parameter set is a string of its own that does not depend on what follows it. */
  lemma SpsAppends(v: Sps, c: Coding, rest: Script)
    requires WellFormed(v, c)
    ensures SpsScript(v, c, rest) == SpsScript(v, c, End).Append(rest)
    ensures SpsScript(v, c, rest).Bits() == SpsScript(v, c, End).Bits() + rest.Bits()
  {
    hide HeadScript, TailScript, Vui.WellFormed, FidelityWellFormed, OrderWellFormed, Script.Bits;
    var tail := TailScript(v, End);
    var next := Then(UE(v.num_ref_frames), Then(FlagOf(v.gaps_in_frame_num_value_allowed_flag), tail));
    TailAppends(v, rest);
    Append2(UE(v.num_ref_frames), FlagOf(v.gaps_in_frame_num_value_allowed_flag), tail, rest);
    HeadAppends(v, c, next);
    HeadAppends(v, c, next.Append(rest));
    AppendAssociative(HeadScript(v, c, End), next, rest);
    SpsScript(v, c, End).AppendBits(rest);
  }
}
