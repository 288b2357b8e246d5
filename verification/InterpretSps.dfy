// The readers of sequence parameter sets in common/jmdec.cpp: InterpretSPS and its sections.
module SpsReader {
  import opened Bits
  import opened BitReader
  import opened ScalingLists
  import opened HrdSyntax
  import opened VuiSyntax
  import opened SpsSyntax

  class SeqParameterSet {
    var Valid: bool
    var profile_idc: nat
    var constrained_set0_flag: bool
    var constrained_set1_flag: bool
    var constrained_set2_flag: bool
    var constrained_set3_flag: bool
    var level_idc: nat
    var seq_parameter_set_id: nat
    var chroma_format_idc: nat
    var seq_scaling_matrix_present_flag: bool
    var seq_scaling_list_present_flag: seq<nat>
    const ScalingList4x4: array2<int>
    const ScalingList8x8: array2<int>
    var UseDefaultScalingMatrix4x4Flag: seq<bool>
    var UseDefaultScalingMatrix8x8Flag: seq<bool>
    var bit_depth_luma_minus8: nat
    var bit_depth_chroma_minus8: nat
    var log2_max_frame_num_minus4: nat
    var pic_order_cnt_type: nat
    var log2_max_pic_order_cnt_lsb_minus4: nat
    var delta_pic_order_always_zero_flag: bool
    var offset_for_non_ref_pic: int
    var offset_for_top_to_bottom_field: int
    var num_ref_frames_in_pic_order_cnt_cycle: nat
    var offset_for_ref_frame: seq<int>
    var num_ref_frames: nat
    var gaps_in_frame_num_value_allowed_flag: bool
    var pic_width_in_mbs_minus1: nat
    var pic_height_in_map_units_minus1: nat
    var frame_mbs_only_flag: bool
    var mb_adaptive_frame_field_flag: bool
    var direct_8x8_inference_flag: bool
    var frame_cropping_flag: bool
    var frame_cropping_rect_left_offset: nat
    var frame_cropping_rect_right_offset: nat
    var frame_cropping_rect_top_offset: nat
    var frame_cropping_rect_bottom_offset: nat
    var vui_parameters_present_flag: bool
    const vui_seq_parameters: VuiParameters
    var separate_colour_plane_flag: nat

    ghost predicate TableShape()
      reads `UseDefaultScalingMatrix4x4Flag, `UseDefaultScalingMatrix8x8Flag
    {
      && ScalingList4x4.Length0 == ScalingList8x8.Length0 == 6
      && ScalingList4x4.Length1 == 16 && ScalingList8x8.Length1 == 64
      && |UseDefaultScalingMatrix4x4Flag| == |UseDefaultScalingMatrix8x8Flag| == 6
    }

    /** The embedded tables have their declared sizes. */
    ghost predicate Shape()
      reads `seq_scaling_list_present_flag, `UseDefaultScalingMatrix4x4Flag, `UseDefaultScalingMatrix8x8Flag
    {
      && TableShape()
      && |seq_scaling_list_present_flag| == 12
      && vui_seq_parameters.nal_hrd_parameters != vui_seq_parameters.vcl_hrd_parameters
    }

    /** The flags of the first i scaling lists are those of f, the others still zero. */
    ghost predicate FlagsRead(f: Fidelity, i: nat)
      reads `seq_scaling_list_present_flag
    {
      && |seq_scaling_list_present_flag| == |f.seq_scaling_list_present_flag| == 12
      && (forall k :: 0 <= k < 12 ==>
            seq_scaling_list_present_flag[k] == if k < i then f.seq_scaling_list_present_flag[k] else 0)
    }

    /** The first n 4x4 lists are those of f, the others still zero. */
    ghost predicate Lists4x4(f: Fidelity, n: nat)
      reads `UseDefaultScalingMatrix4x4Flag, ScalingList4x4
    {
      && ScalingList4x4.Length0 == |f.scalingList4x4| == 6 && ScalingList4x4.Length1 == 16
      && |UseDefaultScalingMatrix4x4Flag| == |f.useDefaultScalingMatrix4x4Flag| == 6
      && (forall k :: 0 <= k < 6 ==> RowOf(ScalingList4x4, k) == if k < n then f.scalingList4x4[k] else ZeroList(0))
      && (forall k :: 0 <= k < 6 ==>
            UseDefaultScalingMatrix4x4Flag[k] == (k < n && f.useDefaultScalingMatrix4x4Flag[k]))
    }

    /** The first n 8x8 lists are those of f, the others still zero. */
    ghost predicate Lists8x8(f: Fidelity, n: nat)
      reads `UseDefaultScalingMatrix8x8Flag, ScalingList8x8
    {
      && ScalingList8x8.Length0 == |f.scalingList8x8| == 6 && ScalingList8x8.Length1 == 64
      && |UseDefaultScalingMatrix8x8Flag| == |f.useDefaultScalingMatrix8x8Flag| == 6
      && (forall k :: 0 <= k < 6 ==> RowOf(ScalingList8x8, k) == if k < n then f.scalingList8x8[k] else ZeroList(6))
      && (forall k :: 0 <= k < 6 ==>
            UseDefaultScalingMatrix8x8Flag[k] == (k < n && f.useDefaultScalingMatrix8x8Flag[k]))
    }

    /** The first i of the twelve scaling lists are those of f, the others still zero. */
    ghost predicate ListsRead(f: Fidelity, i: nat)
      reads `UseDefaultScalingMatrix4x4Flag, `UseDefaultScalingMatrix8x8Flag, ScalingList4x4, ScalingList8x8
    {
      Lists4x4(f, if i < 6 then i else 6) && Lists8x8(f, if i < 6 then 0 else i - 6)
    }

    ghost function FidelityContents(): Fidelity
      reads `chroma_format_idc, `separate_colour_plane_flag, `bit_depth_luma_minus8, `bit_depth_chroma_minus8
      reads `seq_scaling_matrix_present_flag, `seq_scaling_list_present_flag
      reads `UseDefaultScalingMatrix4x4Flag, `UseDefaultScalingMatrix8x8Flag, ScalingList4x4, ScalingList8x8
    {
      Fidelity(chroma_format_idc, separate_colour_plane_flag, bit_depth_luma_minus8, bit_depth_chroma_minus8,
               seq_scaling_matrix_present_flag, seq_scaling_list_present_flag,
               Rows(ScalingList4x4), Rows(ScalingList8x8),
               UseDefaultScalingMatrix4x4Flag, UseDefaultScalingMatrix8x8Flag)
    }

    ghost function OrderContents(): PicOrder
      reads `log2_max_frame_num_minus4, `pic_order_cnt_type, `log2_max_pic_order_cnt_lsb_minus4
      reads `delta_pic_order_always_zero_flag, `offset_for_non_ref_pic, `offset_for_top_to_bottom_field
      reads `num_ref_frames_in_pic_order_cnt_cycle, `offset_for_ref_frame
    {
      PicOrder(log2_max_frame_num_minus4, pic_order_cnt_type, log2_max_pic_order_cnt_lsb_minus4,
               delta_pic_order_always_zero_flag, offset_for_non_ref_pic, offset_for_top_to_bottom_field,
               num_ref_frames_in_pic_order_cnt_cycle, offset_for_ref_frame)
    }

    ghost function GeometryContents(): Geometry
      reads `pic_width_in_mbs_minus1, `pic_height_in_map_units_minus1, `frame_mbs_only_flag
      reads `mb_adaptive_frame_field_flag, `direct_8x8_inference_flag, `frame_cropping_flag
      reads `frame_cropping_rect_left_offset, `frame_cropping_rect_right_offset
      reads `frame_cropping_rect_top_offset, `frame_cropping_rect_bottom_offset
    {
      Geometry(pic_width_in_mbs_minus1, pic_height_in_map_units_minus1, frame_mbs_only_flag,
               mb_adaptive_frame_field_flag, direct_8x8_inference_flag, frame_cropping_flag,
               frame_cropping_rect_left_offset, frame_cropping_rect_right_offset,
               frame_cropping_rect_top_offset, frame_cropping_rect_bottom_offset)
    }

    ghost function Contents(): Sps
      reads this, ScalingList4x4, ScalingList8x8
      reads vui_seq_parameters, vui_seq_parameters.nal_hrd_parameters, vui_seq_parameters.vcl_hrd_parameters
    {
      Sps(Valid, profile_idc, constrained_set0_flag, constrained_set1_flag, constrained_set2_flag,
          constrained_set3_flag, level_idc, seq_parameter_set_id, FidelityContents(), OrderContents(),
          num_ref_frames, gaps_in_frame_num_value_allowed_flag, GeometryContents(),
          vui_parameters_present_flag, vui_seq_parameters.Contents())
    }

    /** The structure calloc returns. */
    ghost predicate Zeroed()
      reads this, ScalingList4x4, ScalingList8x8
      reads vui_seq_parameters, vui_seq_parameters.nal_hrd_parameters, vui_seq_parameters.vcl_hrd_parameters
    {
      && Shape()
      && Contents() == Sps(false, 0, false, false, false, false, 0, 0, ZeroFidelity(), ZeroOrder(), 0, false,
                           ZeroGeometry(), false, InitialVui().(matrix_coefficients := 0))
    }

    lemma DistinctHrds()
      requires Shape()
      ensures vui_seq_parameters.nal_hrd_parameters != vui_seq_parameters.vcl_hrd_parameters
    {
    }

    /** AllocSPS */
    constructor ()
      ensures Zeroed()
      ensures fresh(ScalingList4x4) && fresh(ScalingList8x8) && fresh(vui_seq_parameters)
      ensures fresh(vui_seq_parameters.nal_hrd_parameters) && fresh(vui_seq_parameters.vcl_hrd_parameters)
    {
      hide VuiParameters.Contents, InitialVui, FidelityContents, ZeroFidelity, ZeroOffsets;
      Valid, profile_idc, level_idc, seq_parameter_set_id := false, 0, 0, 0;
      constrained_set0_flag, constrained_set1_flag := false, false;
      constrained_set2_flag, constrained_set3_flag := false, false;
      chroma_format_idc, separate_colour_plane_flag, seq_scaling_matrix_present_flag := 0, 0, false;
      bit_depth_luma_minus8, bit_depth_chroma_minus8 := 0, 0;
      seq_scaling_list_present_flag := seq(12, _ => 0);
      ScalingList4x4 := new int[6, 16]((i, j) => 0);
      ScalingList8x8 := new int[6, 64]((i, j) => 0);
      UseDefaultScalingMatrix4x4Flag, UseDefaultScalingMatrix8x8Flag := seq(6, _ => false), seq(6, _ => false);
      log2_max_frame_num_minus4, pic_order_cnt_type, log2_max_pic_order_cnt_lsb_minus4 := 0, 0, 0;
      delta_pic_order_always_zero_flag, offset_for_non_ref_pic, offset_for_top_to_bottom_field := false, 0, 0;
      num_ref_frames_in_pic_order_cnt_cycle, offset_for_ref_frame := 0, ZeroOffsets();
      num_ref_frames, gaps_in_frame_num_value_allowed_flag := 0, false;
      pic_width_in_mbs_minus1, pic_height_in_map_units_minus1, frame_mbs_only_flag := 0, 0, false;
      mb_adaptive_frame_field_flag, direct_8x8_inference_flag, frame_cropping_flag := false, false, false;
      frame_cropping_rect_left_offset, frame_cropping_rect_right_offset := 0, 0;
      frame_cropping_rect_top_offset, frame_cropping_rect_bottom_offset := 0, 0;
      vui_parameters_present_flag := false;
      vui_seq_parameters := new VuiParameters();
      new;
      ZeroTables();
    }

    lemma ZeroTables()
      requires TableShape()
      requires chroma_format_idc == separate_colour_plane_flag == bit_depth_luma_minus8 == bit_depth_chroma_minus8 == 0
      requires !seq_scaling_matrix_present_flag && seq_scaling_list_present_flag == seq(12, _ => 0)
      requires UseDefaultScalingMatrix4x4Flag == UseDefaultScalingMatrix8x8Flag == seq(6, _ => false)
      requires forall r, c :: 0 <= r < 6 && 0 <= c < 16 ==> ScalingList4x4[r, c] == 0
      requires forall r, c :: 0 <= r < 6 && 0 <= c < 64 ==> ScalingList8x8[r, c] == 0
      ensures FidelityContents() == ZeroFidelity()
    {
      assert forall k :: 0 <= k < 6 ==> RowOf(ScalingList4x4, k) == ZeroList(0);
      assert forall k :: 0 <= k < 6 ==> RowOf(ScalingList8x8, k) == ZeroList(6);
    }
  }

  // ---------------------------------------------------------------- level and constraint flags

  method ReadConstraints(s: Bitstream, sps: SeqParameterSet, ghost v: Sps, ghost c: Coding, ghost rest: Script)
    requires s.Valid() && s.ahead == ConstraintScript(v, LevelScript(v, c, rest))
    modifies sps`constrained_set0_flag, sps`constrained_set1_flag, sps`constrained_set2_flag,
             sps`constrained_set3_flag, sps`level_idc, sps`seq_parameter_set_id, s`frame_bitoffset, s`ahead
    ensures sps.constrained_set0_flag == v.constrained_set0_flag
    ensures sps.constrained_set1_flag == v.constrained_set1_flag
    ensures sps.constrained_set2_flag == v.constrained_set2_flag
    ensures sps.constrained_set3_flag == v.constrained_set3_flag
    ensures sps.level_idc == v.level_idc && sps.seq_parameter_set_id == v.seq_parameter_set_id
    ensures s.Valid() && s.ahead == rest && s.EndOffset() == old(s.EndOffset())
  {
    hide Bitstream.Valid, Bitstream.EndOffset, LevelScript;
    sps.constrained_set0_flag := s.Flag();
    sps.constrained_set1_flag := s.Flag();
    sps.constrained_set2_flag := s.Flag();
    sps.constrained_set3_flag := s.Flag();
    ReadLevel(s, sps, v, c, rest);
  }

  method ReadLevel(s: Bitstream, sps: SeqParameterSet, ghost v: Sps, ghost c: Coding, ghost rest: Script)
    requires s.Valid() && s.ahead == LevelScript(v, c, rest)
    modifies sps`level_idc, sps`seq_parameter_set_id, s`frame_bitoffset, s`ahead
    ensures sps.level_idc == v.level_idc && sps.seq_parameter_set_id == v.seq_parameter_set_id
    ensures s.Valid() && s.ahead == rest && s.EndOffset() == old(s.EndOffset())
  {
    hide Bitstream.Valid, Bitstream.EndOffset;
    var reservedZero := s.UV(4);
    sps.level_idc := s.UVUnsigned(8);
    sps.seq_parameter_set_id := s.UeUnsigned();
  }

  // ---------------------------------------------------------------- fidelity range extensions

  /** The loop over the scaling lists. */
  method ReadLists(s: Bitstream, sps: SeqParameterSet, ghost f: Fidelity, ghost c: Coding, ghost rest: Script)
    requires FidelityShape(f, c) && forall k :: 0 <= k < 12 ==> ListWellFormed(f, c, k)
    requires f.seq_scaling_matrix_present_flag && sps.chroma_format_idc == f.chroma_format_idc
    requires s.Valid() && s.ahead == ListsScript(f, c, 0, rest)
    requires sps.FlagsRead(f, 0) && sps.ListsRead(f, 0)
    modifies sps`seq_scaling_list_present_flag, sps`UseDefaultScalingMatrix4x4Flag,
             sps`UseDefaultScalingMatrix8x8Flag, sps.ScalingList4x4, sps.ScalingList8x8, s`frame_bitoffset, s`ahead
    ensures sps.FlagsRead(f, CodedLists(f)) && sps.ListsRead(f, CodedLists(f))
    ensures s.Valid() && s.ahead == rest && s.EndOffset() == old(s.EndOffset())
  {
    hide Bitstream.Valid, Bitstream.EndOffset, Codable, ListScript, SeqParameterSet.ListsRead;
    var listCount := if sps.chroma_format_idc != YUV444 then 8 else 12;
    var i := 0;
    while i < listCount
      invariant 0 <= i <= CodedLists(f) == listCount
      invariant sps.FlagsRead(f, i) && sps.ListsRead(f, i)
      invariant s.Valid() && s.ahead == ListsScript(f, c, i, rest) && s.EndOffset() == old(s.EndOffset())
    {
      assert ListWellFormed(f, c, i);
      var present := s.UVUnsigned(1);
      sps.seq_scaling_list_present_flag := sps.seq_scaling_list_present_flag[i := present];
      if present != 0 {
        ReadList(s, sps, i, f, c, ListsScript(f, c, i + 1, rest));
      } else {
        ListAbsent(sps, f, c, i);
      }
      i := i + 1;
    }
  }

  lemma ListAbsent(sps: SeqParameterSet, f: Fidelity, c: Coding, i: nat)
    requires i < 12 && FidelityShape(f, c) && sps.ListsRead(f, i)
    requires ListAt(f, i) == ZeroList(i) && !DefaultAt(f, i)
    ensures sps.ListsRead(f, i + 1)
  {
    assert ZeroList(i) == ZeroList(if i < 6 then 0 else 6);
  }

  lemma DistinctTables(sps: SeqParameterSet, f: Fidelity, i: nat)
    requires i < 12 && sps.ListsRead(f, i)
    ensures sps.ScalingList4x4 != sps.ScalingList8x8
    ensures sps.Lists4x4(f, if i < 6 then i else 6) && sps.Lists8x8(f, if i < 6 then 0 else i - 6)
  {
  }

  /** One turn of the loop: the i-th list goes to one of the two tables. */
  method ReadList(s: Bitstream, sps: SeqParameterSet, i: nat, ghost f: Fidelity, ghost c: Coding, ghost rest: Script)
    requires i < 12 && FidelityShape(f, c) && sps.ListsRead(f, i)
    requires Codable(ListAt(f, i), c.stops[i]) && DefaultAt(f, i) == (c.stops[i] == 0)
    requires s.Valid() && s.ahead == ListScript(ListAt(f, i), c.stops[i], 0, rest)
    modifies sps`UseDefaultScalingMatrix4x4Flag, sps`UseDefaultScalingMatrix8x8Flag,
             sps.ScalingList4x4, sps.ScalingList8x8, s`frame_bitoffset, s`ahead
    ensures sps.ListsRead(f, i + 1)
    ensures s.Valid() && s.ahead == rest && s.EndOffset() == old(s.EndOffset())
  {
    hide *;
    DistinctTables(sps, f, i);
    ListParts(f, c, i);
    if i < 6 {
      Read4x4(s, sps, i, f, c.stops[i], rest);
      assert sps.Lists4x4(f, i + 1) && sps.Lists8x8(f, 0);
    } else {
      Read8x8(s, sps, i - 6, f, c.stops[i], rest);
      assert sps.Lists4x4(f, 6) && sps.Lists8x8(f, i - 6 + 1);
    }
    ListsReadAt(sps, f, i + 1);
  }

  lemma ListParts(f: Fidelity, c: Coding, i: nat)
    requires i < 12 && FidelityShape(f, c)
    ensures |c.stops| == 12 && |f.scalingList4x4| == 6 && |f.scalingList8x8| == 6
    ensures |f.useDefaultScalingMatrix4x4Flag| == 6 && |f.useDefaultScalingMatrix8x8Flag| == 6
    ensures i < 6 ==> |f.scalingList4x4[i]| == 16 && ListAt(f, i) == f.scalingList4x4[i]
                      && DefaultAt(f, i) == f.useDefaultScalingMatrix4x4Flag[i]
    ensures i >= 6 ==> |f.scalingList8x8[i - 6]| == 64 && ListAt(f, i) == f.scalingList8x8[i - 6]
                       && DefaultAt(f, i) == f.useDefaultScalingMatrix8x8Flag[i - 6]
  {
  }

  lemma ListsReadAt(sps: SeqParameterSet, f: Fidelity, i: nat)
    requires sps.Lists4x4(f, if i < 6 then i else 6) && sps.Lists8x8(f, if i < 6 then 0 else i - 6)
    ensures sps.ListsRead(f, i)
  {
  }

  method Read4x4(s: Bitstream, sps: SeqParameterSet, i: nat, ghost f: Fidelity, ghost stop: nat, ghost rest: Script)
    requires i < 6 && sps.Lists4x4(f, i) && |f.scalingList4x4[i]| == 16
    requires Codable(f.scalingList4x4[i], stop) && f.useDefaultScalingMatrix4x4Flag[i] == (stop == 0)
    requires s.Valid() && s.ahead == ListScript(f.scalingList4x4[i], stop, 0, rest)
    modifies sps`UseDefaultScalingMatrix4x4Flag, sps.ScalingList4x4, s`frame_bitoffset, s`ahead
    ensures sps.Lists4x4(f, i + 1)
    ensures s.Valid() && s.ahead == rest && s.EndOffset() == old(s.EndOffset())
  {
    hide Bitstream.Valid, Bitstream.EndOffset, Codable, ListScript;
    ghost var rows := Rows(sps.ScalingList4x4);
    var d := ScalingList(sps.ScalingList4x4, i, s, f.scalingList4x4[i], stop, rest);
    sps.UseDefaultScalingMatrix4x4Flag := sps.UseDefaultScalingMatrix4x4Flag[i := d];
    assert forall k :: 0 <= k < 6 && k != i ==> RowOf(sps.ScalingList4x4, k) == rows[k];
  }

  method Read8x8(s: Bitstream, sps: SeqParameterSet, i: nat, ghost f: Fidelity, ghost stop: nat, ghost rest: Script)
    requires i < 6 && sps.Lists8x8(f, i) && |f.scalingList8x8[i]| == 64
    requires Codable(f.scalingList8x8[i], stop) && f.useDefaultScalingMatrix8x8Flag[i] == (stop == 0)
    requires s.Valid() && s.ahead == ListScript(f.scalingList8x8[i], stop, 0, rest)
    modifies sps`UseDefaultScalingMatrix8x8Flag, sps.ScalingList8x8, s`frame_bitoffset, s`ahead
    ensures sps.Lists8x8(f, i + 1)
    ensures s.Valid() && s.ahead == rest && s.EndOffset() == old(s.EndOffset())
  {
    hide Bitstream.Valid, Bitstream.EndOffset, Codable, ListScript;
    ghost var rows := Rows(sps.ScalingList8x8);
    var d := ScalingList(sps.ScalingList8x8, i, s, f.scalingList8x8[i], stop, rest);
    sps.UseDefaultScalingMatrix8x8Flag := sps.UseDefaultScalingMatrix8x8Flag[i := d];
    assert forall k :: 0 <= k < 6 && k != i ==> RowOf(sps.ScalingList8x8, k) == rows[k];
  }

  /** The defaults and, for the high profiles, the coded values of the fidelity range extensions. */
  method ReadFidelity(s: Bitstream, sps: SeqParameterSet, ghost f: Fidelity, ghost c: Coding, ghost rest: Script)
    requires FidelityWellFormed(HighProfile(sps.profile_idc), f, c)
    requires s.Valid() && s.ahead == FidelityScript(HighProfile(sps.profile_idc), f, c, rest)
    requires sps.Shape() && sps.FidelityContents() == ZeroFidelity()
    modifies sps`chroma_format_idc, sps`separate_colour_plane_flag, sps`bit_depth_luma_minus8,
             sps`bit_depth_chroma_minus8, sps`seq_scaling_matrix_present_flag,
             sps`seq_scaling_list_present_flag, sps`UseDefaultScalingMatrix4x4Flag,
             sps`UseDefaultScalingMatrix8x8Flag, sps.ScalingList4x4, sps.ScalingList8x8, s`frame_bitoffset, s`ahead
    ensures sps.Shape() && sps.FidelityContents() == f
    ensures s.Valid() && s.ahead == rest && s.EndOffset() == old(s.EndOffset())
  {
    hide Bitstream.Valid, Bitstream.EndOffset, ListWellFormed, FidelityScript;
    hide SeqParameterSet.FlagsRead, SeqParameterSet.ListsRead;
    sps.chroma_format_idc := 1;
    sps.bit_depth_luma_minus8 := 0;
    sps.bit_depth_chroma_minus8 := 0;
    sps.separate_colour_plane_flag := 0;
    if HighProfile(sps.profile_idc) {
      NothingRead(sps, f, c);
      ReadHigh(s, sps, f, c, rest);
      EverythingRead(sps, f, c);
    } else {
      NoFidelity(f, c, rest);
    }
  }

  lemma NoFidelity(f: Fidelity, c: Coding, rest: Script)
    requires FidelityWellFormed(false, f, c)
    ensures FidelityScript(false, f, c, rest) == rest
  {
  }

  /** The part that only the high profiles carry. */
  method ReadHigh(s: Bitstream, sps: SeqParameterSet, ghost f: Fidelity, ghost c: Coding, ghost rest: Script)
    requires FidelityWellFormed(true, f, c)
    requires s.Valid() && s.ahead == FidelityScript(true, f, c, rest)
    requires sps.separate_colour_plane_flag == 0 && !sps.seq_scaling_matrix_present_flag
    requires sps.FlagsRead(f, 0) && sps.ListsRead(f, 0)
    modifies sps`chroma_format_idc, sps`separate_colour_plane_flag, sps`bit_depth_luma_minus8,
             sps`bit_depth_chroma_minus8, sps`seq_scaling_matrix_present_flag,
             sps`seq_scaling_list_present_flag, sps`UseDefaultScalingMatrix4x4Flag,
             sps`UseDefaultScalingMatrix8x8Flag, sps.ScalingList4x4, sps.ScalingList8x8, s`frame_bitoffset, s`ahead
    ensures sps.chroma_format_idc == f.chroma_format_idc
    ensures sps.separate_colour_plane_flag == f.separate_colour_plane_flag
    ensures sps.bit_depth_luma_minus8 == f.bit_depth_luma_minus8
    ensures sps.bit_depth_chroma_minus8 == f.bit_depth_chroma_minus8
    ensures sps.seq_scaling_matrix_present_flag == f.seq_scaling_matrix_present_flag
    ensures sps.FlagsRead(f, CodedLists(f)) && sps.ListsRead(f, CodedLists(f))
    ensures s.Valid() && s.ahead == rest && s.EndOffset() == old(s.EndOffset())
  {
    hide Bitstream.Valid, Bitstream.EndOffset, ListWellFormed, DepthScript, ZeroFidelity;
    hide SeqParameterSet.FlagsRead, SeqParameterSet.ListsRead, FidelityShape;
    sps.chroma_format_idc := s.UeUnsigned();
    if sps.chroma_format_idc == YUV444 {
      sps.separate_colour_plane_flag := s.UVUnsigned(1);
    }
    ReadDepths(s, sps, f, c, rest);
  }

  method ReadDepths(s: Bitstream, sps: SeqParameterSet, ghost f: Fidelity, ghost c: Coding, ghost rest: Script)
    requires FidelityShape(f, c) && forall k :: 0 <= k < 12 ==> ListWellFormed(f, c, k)
    requires sps.chroma_format_idc == f.chroma_format_idc
    requires s.Valid() && s.ahead == DepthScript(f, c, rest)
    requires !sps.seq_scaling_matrix_present_flag && sps.FlagsRead(f, 0) && sps.ListsRead(f, 0)
    modifies sps`bit_depth_luma_minus8, sps`bit_depth_chroma_minus8, sps`seq_scaling_matrix_present_flag,
             sps`seq_scaling_list_present_flag, sps`UseDefaultScalingMatrix4x4Flag,
             sps`UseDefaultScalingMatrix8x8Flag, sps.ScalingList4x4, sps.ScalingList8x8, s`frame_bitoffset, s`ahead
    ensures sps.bit_depth_luma_minus8 == f.bit_depth_luma_minus8
    ensures sps.bit_depth_chroma_minus8 == f.bit_depth_chroma_minus8
    ensures sps.seq_scaling_matrix_present_flag == f.seq_scaling_matrix_present_flag
    ensures sps.FlagsRead(f, CodedLists(f)) && sps.ListsRead(f, CodedLists(f))
    ensures s.Valid() && s.ahead == rest && s.EndOffset() == old(s.EndOffset())
  {
    hide Bitstream.Valid, Bitstream.EndOffset, ListWellFormed, SeqParameterSet.ListsRead;
    sps.bit_depth_luma_minus8 := s.UeUnsigned();
    sps.bit_depth_chroma_minus8 := s.UeUnsigned();
    var lossless := s.UV(1);
    sps.seq_scaling_matrix_present_flag := s.Flag();
    if sps.seq_scaling_matrix_present_flag {
      ReadLists(s, sps, f, c, rest);
    }
  }

  lemma NothingRead(sps: SeqParameterSet, f: Fidelity, c: Coding)
    requires FidelityShape(f, c) && sps.Shape()
    requires sps.seq_scaling_list_present_flag == ZeroFidelity().seq_scaling_list_present_flag
    requires Rows(sps.ScalingList4x4) == ZeroFidelity().scalingList4x4
    requires Rows(sps.ScalingList8x8) == ZeroFidelity().scalingList8x8
    requires sps.UseDefaultScalingMatrix4x4Flag == ZeroFidelity().useDefaultScalingMatrix4x4Flag
    requires sps.UseDefaultScalingMatrix8x8Flag == ZeroFidelity().useDefaultScalingMatrix8x8Flag
    ensures sps.FlagsRead(f, 0) && sps.ListsRead(f, 0)
  {
    assert forall k :: 0 <= k < 6 ==> RowOf(sps.ScalingList4x4, k) == Rows(sps.ScalingList4x4)[k];
    assert forall k :: 0 <= k < 6 ==> RowOf(sps.ScalingList8x8, k) == Rows(sps.ScalingList8x8)[k];
  }

  lemma EverythingRead(sps: SeqParameterSet, f: Fidelity, c: Coding)
    requires FidelityShape(f, c) && (forall k :: 0 <= k < 12 ==> ListWellFormed(f, c, k))
    requires forall k :: CodedLists(f) <= k < 12 ==> f.seq_scaling_list_present_flag[k] == 0
    requires sps.FlagsRead(f, CodedLists(f)) && sps.ListsRead(f, CodedLists(f))
    ensures sps.seq_scaling_list_present_flag == f.seq_scaling_list_present_flag
    ensures Rows(sps.ScalingList4x4) == f.scalingList4x4
    ensures Rows(sps.ScalingList8x8) == f.scalingList8x8
    ensures sps.UseDefaultScalingMatrix4x4Flag == f.useDefaultScalingMatrix4x4Flag
    ensures sps.UseDefaultScalingMatrix8x8Flag == f.useDefaultScalingMatrix8x8Flag
    ensures sps.TableShape()
  {
    var n := CodedLists(f);
    forall k | n <= k < 12
      ensures ListAt(f, k) == ZeroList(if k < 6 then 0 else 6) && !DefaultAt(f, k)
    {
      assert ListWellFormed(f, c, k);
    }
    forall k | 0 <= k < 6
      ensures RowOf(sps.ScalingList4x4, k) == f.scalingList4x4[k]
      ensures sps.UseDefaultScalingMatrix4x4Flag[k] == f.useDefaultScalingMatrix4x4Flag[k]
    {
      assert f.scalingList4x4[k] == ListAt(f, k) && f.useDefaultScalingMatrix4x4Flag[k] == DefaultAt(f, k);
    }
    forall k | 0 <= k < 6
      ensures RowOf(sps.ScalingList8x8, k) == f.scalingList8x8[k]
      ensures sps.UseDefaultScalingMatrix8x8Flag[k] == f.useDefaultScalingMatrix8x8Flag[k]
    {
      assert f.scalingList8x8[k] == ListAt(f, k + 6) && f.useDefaultScalingMatrix8x8Flag[k] == DefaultAt(f, k + 6);
    }
  }

  // ---------------------------------------------------------------- picture order count

  method ReadOrder(s: Bitstream, sps: SeqParameterSet, ghost o: PicOrder, ghost rest: Script)
    requires OrderWellFormed(o) && s.Valid() && s.ahead == OrderScript(o, rest)
    requires sps.OrderContents() == ZeroOrder()
    modifies sps`log2_max_frame_num_minus4, sps`pic_order_cnt_type, sps`log2_max_pic_order_cnt_lsb_minus4,
             sps`delta_pic_order_always_zero_flag, sps`offset_for_non_ref_pic, sps`offset_for_top_to_bottom_field,
             sps`num_ref_frames_in_pic_order_cnt_cycle, sps`offset_for_ref_frame, s`frame_bitoffset, s`ahead
    ensures sps.OrderContents() == o
    ensures s.Valid() && s.ahead == rest && s.EndOffset() == old(s.EndOffset())
  {
    hide Bitstream.Valid, Bitstream.EndOffset, ZeroOffsets, CycleScript;
    NoOffsets(o);
    sps.log2_max_frame_num_minus4 := s.UeUnsigned();
    sps.pic_order_cnt_type := s.UeUnsigned();
    if sps.pic_order_cnt_type == 0 {
      sps.log2_max_pic_order_cnt_lsb_minus4 := s.UeUnsigned();
    } else if sps.pic_order_cnt_type == 1 {
      ReadCycle(s, sps, o, rest);
    }
  }

  lemma NoOffsets(o: PicOrder)
    requires OrderWellFormed(o)
    ensures o.num_ref_frames_in_pic_order_cnt_cycle == 0 ==> o.offset_for_ref_frame == ZeroOffsets()
  {
  }

  method ReadCycle(s: Bitstream, sps: SeqParameterSet, ghost o: PicOrder, ghost rest: Script)
    requires OrderWellFormed(o) && s.Valid() && s.ahead == CycleScript(o, rest)
    requires sps.offset_for_ref_frame == ZeroOffsets()
    modifies sps`delta_pic_order_always_zero_flag, sps`offset_for_non_ref_pic, sps`offset_for_top_to_bottom_field,
             sps`num_ref_frames_in_pic_order_cnt_cycle, sps`offset_for_ref_frame, s`frame_bitoffset, s`ahead
    ensures sps.delta_pic_order_always_zero_flag == o.delta_pic_order_always_zero_flag
    ensures sps.offset_for_non_ref_pic == o.offset_for_non_ref_pic
    ensures sps.offset_for_top_to_bottom_field == o.offset_for_top_to_bottom_field
    ensures sps.num_ref_frames_in_pic_order_cnt_cycle == o.num_ref_frames_in_pic_order_cnt_cycle
    ensures sps.offset_for_ref_frame == o.offset_for_ref_frame
    ensures s.Valid() && s.ahead == rest && s.EndOffset() == old(s.EndOffset())
  {
    hide Bitstream.Valid, Bitstream.EndOffset, OffsetsScript;
    sps.delta_pic_order_always_zero_flag := s.Flag();
    sps.offset_for_non_ref_pic := s.SeV();
    sps.offset_for_top_to_bottom_field := s.SeV();
    sps.num_ref_frames_in_pic_order_cnt_cycle := s.UeUnsigned();
    ReadOffsets(s, sps, o, rest);
  }

  /** The loop over offset_for_ref_frame. */
  method ReadOffsets(s: Bitstream, sps: SeqParameterSet, ghost o: PicOrder, ghost rest: Script)
    requires OrderWellFormed(o) && s.Valid() && s.ahead == OffsetsScript(o, 0, rest)
    requires sps.num_ref_frames_in_pic_order_cnt_cycle == o.num_ref_frames_in_pic_order_cnt_cycle
    requires sps.offset_for_ref_frame == ZeroOffsets()
    modifies sps`offset_for_ref_frame, s`frame_bitoffset, s`ahead
    ensures sps.offset_for_ref_frame == o.offset_for_ref_frame
    ensures s.Valid() && s.ahead == rest && s.EndOffset() == old(s.EndOffset())
  {
    hide Bitstream.Valid, Bitstream.EndOffset;
    var i := 0;
    while i < sps.num_ref_frames_in_pic_order_cnt_cycle && i < MAXnum_ref_frames_in_pic_order_cnt_cycle
      invariant 0 <= i <= o.num_ref_frames_in_pic_order_cnt_cycle
      invariant s.Valid() && s.ahead == OffsetsScript(o, i, rest) && s.EndOffset() == old(s.EndOffset())
      invariant |sps.offset_for_ref_frame| == MAXnum_ref_frames_in_pic_order_cnt_cycle
      invariant forall k :: 0 <= k < |sps.offset_for_ref_frame| ==>
                  sps.offset_for_ref_frame[k] == if k < i then o.offset_for_ref_frame[k] else 0
    {
      var offset := s.SeV();
      sps.offset_for_ref_frame := sps.offset_for_ref_frame[i := offset];
      i := i + 1;
    }
  }

  // ---------------------------------------------------------------- picture size and cropping

  method ReadSize(s: Bitstream, sps: SeqParameterSet, ghost g: Geometry, ghost rest: Script)
    requires GeometryWellFormed(g) && s.Valid() && s.ahead == SizeScript(g, rest)
    requires sps.GeometryContents() == ZeroGeometry()
    modifies sps`pic_width_in_mbs_minus1, sps`pic_height_in_map_units_minus1, sps`frame_mbs_only_flag,
             sps`mb_adaptive_frame_field_flag, sps`direct_8x8_inference_flag, sps`frame_cropping_flag,
             sps`frame_cropping_rect_left_offset, sps`frame_cropping_rect_right_offset,
             sps`frame_cropping_rect_top_offset, sps`frame_cropping_rect_bottom_offset, s`frame_bitoffset, s`ahead
    ensures sps.GeometryContents() == g
    ensures s.Valid() && s.ahead == rest && s.EndOffset() == old(s.EndOffset())
  {
    hide Bitstream.Valid, Bitstream.EndOffset, CropScript;
    sps.pic_width_in_mbs_minus1 := s.UeUnsigned();
    sps.pic_height_in_map_units_minus1 := s.UeUnsigned();
    sps.frame_mbs_only_flag := s.Flag();
    if !sps.frame_mbs_only_flag {
      sps.mb_adaptive_frame_field_flag := s.Flag();
    }
    ReadCrop(s, sps, g, rest);
  }

  method ReadCrop(s: Bitstream, sps: SeqParameterSet, ghost g: Geometry, ghost rest: Script)
    requires GeometryWellFormed(g) && s.Valid() && s.ahead == CropScript(g, rest)
    requires sps.frame_cropping_rect_left_offset == sps.frame_cropping_rect_right_offset == 0
    requires sps.frame_cropping_rect_top_offset == sps.frame_cropping_rect_bottom_offset == 0
    modifies sps`direct_8x8_inference_flag, sps`frame_cropping_flag,
             sps`frame_cropping_rect_left_offset, sps`frame_cropping_rect_right_offset,
             sps`frame_cropping_rect_top_offset, sps`frame_cropping_rect_bottom_offset, s`frame_bitoffset, s`ahead
    ensures sps.direct_8x8_inference_flag == g.direct_8x8_inference_flag
    ensures sps.frame_cropping_flag == g.frame_cropping_flag
    ensures sps.frame_cropping_rect_left_offset == g.frame_cropping_rect_left_offset
    ensures sps.frame_cropping_rect_right_offset == g.frame_cropping_rect_right_offset
    ensures sps.frame_cropping_rect_top_offset == g.frame_cropping_rect_top_offset
    ensures sps.frame_cropping_rect_bottom_offset == g.frame_cropping_rect_bottom_offset
    ensures s.Valid() && s.ahead == rest && s.EndOffset() == old(s.EndOffset())
  {
    hide Bitstream.Valid, Bitstream.EndOffset;
    sps.direct_8x8_inference_flag := s.Flag();
    sps.frame_cropping_flag := s.Flag();
    if sps.frame_cropping_flag {
      sps.frame_cropping_rect_left_offset := s.UeUnsigned();
      sps.frame_cropping_rect_right_offset := s.UeUnsigned();
      sps.frame_cropping_rect_top_offset := s.UeUnsigned();
      sps.frame_cropping_rect_bottom_offset := s.UeUnsigned();
    }
  }

  // ---------------------------------------------------------------- the parameter set up to num_ref_frames

  /** The fields that come before num_ref_frames hold those of v. */
  ghost predicate HeadIs(sps: SeqParameterSet, v: Sps)
    reads sps`profile_idc, sps`constrained_set0_flag, sps`constrained_set1_flag, sps`constrained_set2_flag
    reads sps`constrained_set3_flag, sps`level_idc, sps`seq_parameter_set_id
    reads sps`chroma_format_idc, sps`separate_colour_plane_flag
    reads sps`bit_depth_luma_minus8, sps`bit_depth_chroma_minus8
    reads sps`seq_scaling_matrix_present_flag, sps`seq_scaling_list_present_flag
    reads sps`UseDefaultScalingMatrix4x4Flag, sps`UseDefaultScalingMatrix8x8Flag
    reads sps.ScalingList4x4, sps.ScalingList8x8
    reads sps`log2_max_frame_num_minus4, sps`pic_order_cnt_type, sps`log2_max_pic_order_cnt_lsb_minus4
    reads sps`delta_pic_order_always_zero_flag, sps`offset_for_non_ref_pic, sps`offset_for_top_to_bottom_field
    reads sps`num_ref_frames_in_pic_order_cnt_cycle, sps`offset_for_ref_frame
  {
    && sps.Shape()
    && sps.profile_idc == v.profile_idc
    && sps.constrained_set0_flag == v.constrained_set0_flag
    && sps.constrained_set1_flag == v.constrained_set1_flag
    && sps.constrained_set2_flag == v.constrained_set2_flag
    && sps.constrained_set3_flag == v.constrained_set3_flag
    && sps.level_idc == v.level_idc && sps.seq_parameter_set_id == v.seq_parameter_set_id
    && sps.FidelityContents() == v.fidelity
    && sps.OrderContents() == v.order
  }

  /** A stream whose profile is unknown, or that goes on with the coding of v. */
  ghost predicate Presents(script: Script, v: Sps, c: Coding, rest: Script) {
    && script.Then? && script.head.U? && script.head.n == 8
    && (KnownProfile(script.head.v) ==> WellFormed(v, c) && script == SpsScript(v, c, rest))
  }

  /** The part of InterpretSPS before num_ref_frames, which ModifySPS repeats word for word. */
  method ReadHead(s: Bitstream, sps: SeqParameterSet, ghost v: Sps, ghost c: Coding, ghost rest: Script)
    returns (r: int)
    requires s.Valid() && s.ahead.Then? && s.ahead.head.U? && s.ahead.head.n == 8
    requires KnownProfile(s.ahead.head.v) ==> WellFormed(v, c) && s.ahead == HeadScript(v, c, rest)
    requires sps.Shape() && sps.FidelityContents() == ZeroFidelity() && sps.OrderContents() == ZeroOrder()
    modifies sps, sps.ScalingList4x4, sps.ScalingList8x8, s`frame_bitoffset, s`ahead
    ensures sps.GeometryContents() == old(sps.GeometryContents())
    ensures r == if KnownProfile(old(s.ahead).head.v) then 0 else -1
    ensures s.Valid() && s.EndOffset() == old(s.EndOffset())
    ensures r == -1 ==> s.ahead == old(s.ahead).tail
    ensures r == 0 ==> HeadIs(sps, v) && s.ahead == rest
  {
    hide Bitstream.Valid, Bitstream.EndOffset, ZeroFidelity, ZeroOrder;
    hide ConstraintScript, FidelityScript, OrderScript, FidelityWellFormed, OrderWellFormed, Vui.WellFormed;
    hide GeometryWellFormed;
    hide SeqParameterSet.FidelityContents, SeqParameterSet.OrderContents, SeqParameterSet.GeometryContents;
    sps.profile_idc := s.UVUnsigned(8);
    if !KnownProfile(sps.profile_idc) {
      return -1;
    }
    ghost var extensions := ExtensionScript(v, c, rest);
    ReadConstraints(s, sps, v, c, extensions);
    ReadExtensions(s, sps, v, c, rest);
    return 0;
  }

  ghost function ExtensionScript(v: Sps, c: Coding, rest: Script): Script
    requires WellFormed(v, c)
  {
    FidelityScript(HighProfile(v.profile_idc), v.fidelity, c, OrderScript(v.order, rest))
  }

  method ReadExtensions(s: Bitstream, sps: SeqParameterSet, ghost v: Sps, ghost c: Coding, ghost rest: Script)
    requires WellFormed(v, c) && sps.profile_idc == v.profile_idc
    requires s.Valid() && s.ahead == ExtensionScript(v, c, rest)
    requires sps.Shape() && sps.FidelityContents() == ZeroFidelity() && sps.OrderContents() == ZeroOrder()
    modifies sps`chroma_format_idc, sps`separate_colour_plane_flag, sps`bit_depth_luma_minus8,
             sps`bit_depth_chroma_minus8, sps`seq_scaling_matrix_present_flag,
             sps`seq_scaling_list_present_flag, sps`UseDefaultScalingMatrix4x4Flag,
             sps`UseDefaultScalingMatrix8x8Flag, sps.ScalingList4x4, sps.ScalingList8x8,
             sps`log2_max_frame_num_minus4, sps`pic_order_cnt_type, sps`log2_max_pic_order_cnt_lsb_minus4,
             sps`delta_pic_order_always_zero_flag, sps`offset_for_non_ref_pic, sps`offset_for_top_to_bottom_field,
             sps`num_ref_frames_in_pic_order_cnt_cycle, sps`offset_for_ref_frame,
             s`frame_bitoffset, s`ahead
    ensures sps.Shape() && sps.FidelityContents() == v.fidelity && sps.OrderContents() == v.order
    ensures s.Valid() && s.ahead == rest && s.EndOffset() == old(s.EndOffset())
  {
    hide Bitstream.Valid, Bitstream.EndOffset, ZeroFidelity, ZeroOrder, FidelityScript, OrderScript;
    hide FidelityWellFormed, OrderWellFormed, Vui.WellFormed, GeometryWellFormed;
    hide SeqParameterSet.FidelityContents, SeqParameterSet.OrderContents;
    ReadFidelity(s, sps, v.fidelity, c, OrderScript(v.order, rest));
    ReadOrder(s, sps, v.order, rest);
  }

  // ---------------------------------------------------------------- InterpretSPS

  /** The fields of picture size, cropping and VUI hold those of v. */
  ghost predicate TailIs(sps: SeqParameterSet, v: Sps)
    reads sps`pic_width_in_mbs_minus1, sps`pic_height_in_map_units_minus1, sps`frame_mbs_only_flag
    reads sps`mb_adaptive_frame_field_flag, sps`direct_8x8_inference_flag, sps`frame_cropping_flag
    reads sps`frame_cropping_rect_left_offset, sps`frame_cropping_rect_right_offset
    reads sps`frame_cropping_rect_top_offset, sps`frame_cropping_rect_bottom_offset
    reads sps`vui_parameters_present_flag, sps.vui_seq_parameters
    reads sps.vui_seq_parameters.nal_hrd_parameters, sps.vui_seq_parameters.vcl_hrd_parameters
  {
    && sps.GeometryContents() == v.geometry
    && sps.vui_parameters_present_flag == v.vui_parameters_present_flag
    && sps.vui_seq_parameters.Contents() == v.vui
  }

  method ReadTail(s: Bitstream, sps: SeqParameterSet, ghost v: Sps, ghost rest: Script)
    requires s.Valid() && GeometryWellFormed(v.geometry) && v.vui.WellFormed()
    requires !v.vui_parameters_present_flag ==> v.vui == InitialVui()
    requires s.ahead == TailScript(v, rest)
    requires sps.GeometryContents() == ZeroGeometry()
    requires sps.vui_seq_parameters.Contents() == InitialVui().(matrix_coefficients := 0)
    requires sps.vui_seq_parameters.nal_hrd_parameters != sps.vui_seq_parameters.vcl_hrd_parameters
    modifies sps`pic_width_in_mbs_minus1, sps`pic_height_in_map_units_minus1, sps`frame_mbs_only_flag,
             sps`mb_adaptive_frame_field_flag, sps`direct_8x8_inference_flag, sps`frame_cropping_flag,
             sps`frame_cropping_rect_left_offset, sps`frame_cropping_rect_right_offset,
             sps`frame_cropping_rect_top_offset, sps`frame_cropping_rect_bottom_offset,
             sps`vui_parameters_present_flag, sps.vui_seq_parameters,
             sps.vui_seq_parameters.nal_hrd_parameters, sps.vui_seq_parameters.vcl_hrd_parameters,
             s`frame_bitoffset, s`ahead
    ensures TailIs(sps, v)
    ensures s.Valid() && s.ahead == rest && s.EndOffset() == old(s.EndOffset())
  {
    hide Bitstream.Valid, Bitstream.EndOffset, SizeScript, VuiScript, Vui.WellFormed;
    hide InitialVui, ZeroGeometry, GeometryWellFormed, VuiParameters.Contents, SeqParameterSet.GeometryContents;
    ReadSize(s, sps, v.geometry,
             Then(FlagOf(v.vui_parameters_present_flag),
             if v.vui_parameters_present_flag then VuiScript(v.vui, rest) else rest));
    sps.vui_parameters_present_flag := s.Flag();
    InitVUI(sps.vui_seq_parameters);
    var r := ReadVUI(s, sps.vui_parameters_present_flag, sps.vui_seq_parameters, v.vui, rest);
  }

  method ReadRefFrames(s: Bitstream, sps: SeqParameterSet, ghost v: Sps, ghost rest: Script)
    requires s.Valid()
    requires s.ahead == Then(UE(v.num_ref_frames), Then(FlagOf(v.gaps_in_frame_num_value_allowed_flag), rest))
    modifies sps`num_ref_frames, sps`gaps_in_frame_num_value_allowed_flag, s`frame_bitoffset, s`ahead
    ensures sps.num_ref_frames == v.num_ref_frames
    ensures sps.gaps_in_frame_num_value_allowed_flag == v.gaps_in_frame_num_value_allowed_flag
    ensures s.Valid() && s.ahead == rest && s.EndOffset() == old(s.EndOffset())
  {
    hide Bitstream.Valid, Bitstream.EndOffset;
    sps.num_ref_frames := s.UeUnsigned();
    sps.gaps_in_frame_num_value_allowed_flag := s.Flag();
  }

  /** The part of InterpretSPS from num_ref_frames on. */
  method ReadRest(s: Bitstream, sps: SeqParameterSet, ghost v: Sps, ghost rest: Script)
    requires s.Valid() && GeometryWellFormed(v.geometry) && v.vui.WellFormed()
    requires !v.vui_parameters_present_flag ==> v.vui == InitialVui()
    requires s.ahead == Then(UE(v.num_ref_frames),
                        Then(FlagOf(v.gaps_in_frame_num_value_allowed_flag), TailScript(v, rest)))
    requires sps.GeometryContents() == ZeroGeometry()
    requires sps.vui_seq_parameters.Contents() == InitialVui().(matrix_coefficients := 0)
    requires sps.vui_seq_parameters.nal_hrd_parameters != sps.vui_seq_parameters.vcl_hrd_parameters
    modifies sps, sps.vui_seq_parameters,
             sps.vui_seq_parameters.nal_hrd_parameters, sps.vui_seq_parameters.vcl_hrd_parameters,
             s`frame_bitoffset, s`ahead
    ensures old(HeadIs(sps, v)) ==> HeadIs(sps, v)
    ensures TailIs(sps, v) && sps.num_ref_frames == v.num_ref_frames
    ensures sps.gaps_in_frame_num_value_allowed_flag == v.gaps_in_frame_num_value_allowed_flag
    ensures s.Valid() && s.ahead == rest && s.EndOffset() == old(s.EndOffset())
  {
    hide Bitstream.Valid, Bitstream.EndOffset, TailScript, TailIs, HeadIs, Vui.WellFormed;
    hide InitialVui, ZeroGeometry, GeometryWellFormed, VuiParameters.Contents, SeqParameterSet.GeometryContents;
    ReadRefFrames(s, sps, v, TailScript(v, rest));
    ReadTail(s, sps, v, rest);
  }

  method InitVUI(vui: VuiParameters)
    requires vui.Contents() == InitialVui().(matrix_coefficients := 0)
    modifies vui`matrix_coefficients
    ensures vui.Contents() == InitialVui()
  {
    vui.matrix_coefficients := 2;
  }

  /**
   * InterpretSPS inverts the coding of sequence parameter sets: whatever well-formed parameter set v
   * is coded at the actual position, with any reserved bits and any coding of its scaling lists, the
   * structure holds v afterwards and the position stands right behind its last bit. An unknown
   * profile is refused after its eight bits.
   */
  method InterpretSPS(s: Bitstream, sps: SeqParameterSet, ghost v: Sps, ghost c: Coding, ghost rest: Script)
    returns (r: int)
    requires s.Valid() && Presents(s.ahead, v, c, rest)
    requires sps.Zeroed()
    modifies sps, sps.ScalingList4x4, sps.ScalingList8x8, sps.vui_seq_parameters,
             sps.vui_seq_parameters.nal_hrd_parameters, sps.vui_seq_parameters.vcl_hrd_parameters,
             s`frame_bitoffset, s`ahead
    ensures r == if KnownProfile(old(s.ahead).head.v) then 0 else -1
    ensures r == 0 ==> sps.Contents() == v && s.Valid() && s.ahead == rest
    ensures r == 0 ==> s.frame_bitoffset == old(s.frame_bitoffset) + |SpsScript(v, c, End).Bits()|
    ensures r == -1 ==> s.Valid() && s.frame_bitoffset == old(s.frame_bitoffset) + 8
    ensures 0 <= old(s.frame_bitoffset) && old(s.frame_bitoffset) + 8 <= |old(s.Content())|
    ensures var first := Value(old(s.Content())[old(s.frame_bitoffset)..old(s.frame_bitoffset) + 8]);
            r == -1 <==> first !in {66, 77, 88, 100, 110, 122, 244, 44}
  {
    hide HeadScript, TailScript, HeadIs, TailIs, Bitstream.Valid, Vui.WellFormed, FidelityWellFormed, OrderWellFormed;
    hide ZeroFidelity, ZeroOrder, ZeroGeometry, InitialVui, SeqParameterSet.Shape, VuiParameters.Contents;
    hide SeqParameterSet.FidelityContents, SeqParameterSet.OrderContents, SeqParameterSet.GeometryContents;
    hide Value, BufferBits, KnownProfile, Script.Bits, Bitstream.Content;
    sps.DistinctHrds();
    FirstEight(s);
    ghost var next := if !KnownProfile(s.ahead.head.v) then End else
                      Then(UE(v.num_ref_frames),
                      Then(FlagOf(v.gaps_in_frame_num_value_allowed_flag), TailScript(v, rest)));
    r := ReadHead(s, sps, v, c, next);
    if r == -1 {
      return -1;
    }
    ReadRest(s, sps, v, rest);
    SpsAppends(v, c, rest);
    sps.Valid := true;
    WholeStructure(sps, v);
    return 0;
  }

  /** The known profiles by their numbers. */
  lemma ProfileNumbers(p: nat)
    ensures KnownProfile(p) <==> p in {66, 77, 88, 100, 110, 122, 244, 44}
  {
  }

  /** A u(8) element ahead is the number of the next eight bits. */
  lemma FirstEight(s: Bitstream)
    requires s.Valid() && s.ahead.Then? && s.ahead.head.U? && s.ahead.head.n == 8
    ensures 0 <= s.frame_bitoffset && s.frame_bitoffset + 8 <= |s.Content()|
    ensures Value(s.Content()[s.frame_bitoffset..s.frame_bitoffset + 8]) == s.ahead.head.v
    ensures |s.ahead.Bits()| == 8 + |s.ahead.tail.Bits()|
    ensures KnownProfile(s.ahead.head.v) <==> s.ahead.head.v in {66, 77, 88, 100, 110, 122, 244, 44}
  {
    hide Script.Bits, Value, UBits, BufferBits, Pow2;
    ProfileNumbers(s.ahead.head.v);
    s.Peel();
    ValueOfUBits(8, s.ahead.head.v);
  }

  lemma WholeStructure(sps: SeqParameterSet, v: Sps)
    requires sps.Valid && v.valid && HeadIs(sps, v) && TailIs(sps, v)
    requires sps.num_ref_frames == v.num_ref_frames
    requires sps.gaps_in_frame_num_value_allowed_flag == v.gaps_in_frame_num_value_allowed_flag
    ensures sps.Contents() == v
  {
  }

  /** The round trip from one end to the other: a parameter set is written into bytes and read back. */
  method WriteAndInterpret(v: Sps, c: Coding) returns (s: Bitstream, sps: SeqParameterSet)
    requires WellFormed(v, c) && SpsScript(v, c, End).Valid()
    requires |SpsScript(v, c, End).Bits()| + 14 < TWO31
    ensures sps.Contents() == v
    ensures s.frame_bitoffset == |SpsScript(v, c, End).Bits()| <= 8 * s.bitstream_length
  {
    hide WellFormed, SpsScript, SeqParameterSet.Zeroed, SeqParameterSet.Contents, Script.Bits;
    s := new Bitstream(SpsScript(v, c, End));
    sps := new SeqParameterSet();
    StartsWithProfile(v, c, End);
    var r := InterpretSPS(s, sps, v, c, End);
  }

  /** Bytes that start with the code of a parameter set are read as this parameter set. */
  method InterpretBytes(bytes: seq<bv8>, ghost v: Sps, ghost c: Coding) returns (r: int, sps: SeqParameterSet)
    requires WellFormed(v, c) && SpsScript(v, c, End).Valid() && 8 * |bytes| + 7 < TWO31
    requires At(BufferBits(bytes), 0, SpsScript(v, c, End).Bits())
    ensures r == 0 && sps.Contents() == v
  {
    hide WellFormed, SpsScript, SeqParameterSet.Zeroed, SeqParameterSet.Contents, Script.Bits, BufferBits, Value;
    var s := new Bitstream.FromBytes(bytes, SpsScript(v, c, End));
    sps := new SeqParameterSet();
    StartsWithProfile(v, c, End);
    r := InterpretSPS(s, sps, v, c, End);
  }

  lemma StartsWithProfile(v: Sps, c: Coding, rest: Script)
    requires WellFormed(v, c)
    ensures Presents(SpsScript(v, c, rest), v, c, rest) && KnownProfile(SpsScript(v, c, rest).head.v)
  {
    hide ConstraintScript, FidelityScript, FidelityWellFormed, OrderWellFormed, Vui.WellFormed;
  }

  /** A parameter set of the baseline profile without VUI. */
  function Baseline(level: nat, refFrames: nat, width: nat, height: nat): Sps {
    Sps(true, 66, false, false, false, false, level, 0, ZeroFidelity().(chroma_format_idc := 1), ZeroOrder(),
        refFrames, false, Geometry(width, height, true, false, true, false, 0, 0, 0, 0), false, InitialVui())
  }

  /** Such a parameter set can be written: what the round trip asks for can be met. */
  lemma BaselineCanBeWritten(level: nat, refFrames: nat, width: nat, height: nat)
    requires level < 256 && refFrames < TWO32 - 1 && width < TWO32 - 1 && height < TWO32 - 1
    ensures var v, c := Baseline(level, refFrames, width, height), Coding(0, 0, seq(12, _ => 0));
            WellFormed(v, c) && SpsScript(v, c, End).Valid()
  {
    hide Pow2;
    SmallPow2();
    var v, c := Baseline(level, refFrames, width, height), Coding(0, 0, seq(12, _ => 0));
    forall i | 0 <= i < 12 ensures ListWellFormed(v.fidelity, c, i) {
      assert ZeroList(i) == ZeroList(if i < 6 then 0 else 6);
    }
    var vuiFlag := Then(FlagOf(false), End);
    var crop := CropScript(v.geometry, vuiFlag);
    assert crop.tail.Valid() && crop.Valid();
    var tail := TailScript(v, End);
    assert tail.tail.tail == Then(FlagOf(true), crop) && tail.tail.tail.Valid() && tail.Valid();
    var next := Then(UE(refFrames), Then(FlagOf(false), tail));
    assert next.tail.Valid() && next.Valid();
    var order := OrderScript(v.order, next);
    assert order.tail.tail.Valid() && order.tail.Valid() && order.Valid();
    var level' := LevelScript(v, c, order);
    assert level'.tail.tail.Valid() && level'.tail.Valid() && level'.Valid();
    var constraints := ConstraintScript(v, level');
    assert constraints.tail.tail.tail.Valid() && constraints.tail.tail.Valid() && constraints.tail.Valid();
    assert constraints.Valid() && SpsScript(v, c, End) == Then(U(8, 66), constraints);
  }

  lemma SmallPow2()
    ensures Pow2(1) == 2 && Pow2(4) == 16 && Pow2(8) == 256
  {
    assert Pow2(2) == 4 && Pow2(4) == 4 * Pow2(2) && Pow2(6) == 4 * Pow2(4);
  }
}
