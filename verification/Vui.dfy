// VUI parameters: section E.1.1 of ITU-T H.264, read by ReadVUI of common/jmdec.cpp.
module VuiSyntax {
  import opened Bits
  import opened BitReader
  import opened HrdSyntax

  datatype Vui = Vui(
    aspect_ratio_info_present_flag: bool,
    aspect_ratio_idc: nat,
    sar_width: nat,
    sar_height: nat,
    overscan_info_present_flag: bool,
    overscan_appropriate_flag: bool,
    video_signal_type_present_flag: bool,
    video_format: nat,
    video_full_range_flag: bool,
    colour_description_present_flag: bool,
    colour_primaries: nat,
    transfer_characteristics: nat,
    matrix_coefficients: nat,
    chroma_location_info_present_flag: bool,
    chroma_sample_loc_type_top_field: nat,
    chroma_sample_loc_type_bottom_field: nat,
    timing_info_present_flag: bool,
    num_units_in_tick: nat,
    time_scale: nat,
    fixed_frame_rate_flag: bool,
    nal_hrd_parameters_present_flag: bool,
    nal_hrd_parameters: Hrd,
    vcl_hrd_parameters_present_flag: bool,
    vcl_hrd_parameters: Hrd,
    low_delay_hrd_flag: bool,
    pic_struct_present_flag: bool,
    bitstream_restriction_flag: bool,
    motion_vectors_over_pic_boundaries_flag: bool,
    max_bytes_per_pic_denom: nat,
    max_bits_per_mb_denom: nat,
    log2_max_mv_length_vertical: nat,
    log2_max_mv_length_horizontal: nat,
    num_reorder_frames: nat,
    max_dec_frame_buffering: nat)
  {
    /** Fields that are not coded have the value InitVUI and calloc leave in them. */
    predicate WellFormed() {
      && (!aspect_ratio_info_present_flag ==> aspect_ratio_idc == 0)
      && (!(aspect_ratio_info_present_flag && aspect_ratio_idc == 255) ==> sar_width == sar_height == 0)
      && (!overscan_info_present_flag ==> !overscan_appropriate_flag)
      && (!video_signal_type_present_flag ==>
            video_format == 0 && !video_full_range_flag && !colour_description_present_flag)
      && (!colour_description_present_flag ==>
            colour_primaries == transfer_characteristics == 0 && matrix_coefficients == 2)
      && (!chroma_location_info_present_flag ==>
            chroma_sample_loc_type_top_field == chroma_sample_loc_type_bottom_field == 0)
      && (!timing_info_present_flag ==> num_units_in_tick == time_scale == 0 && !fixed_frame_rate_flag)
      && (if nal_hrd_parameters_present_flag then nal_hrd_parameters.WellFormed() else nal_hrd_parameters == ZeroHrd())
      && (if vcl_hrd_parameters_present_flag then vcl_hrd_parameters.WellFormed() else vcl_hrd_parameters == ZeroHrd())
      && (!nal_hrd_parameters_present_flag && !vcl_hrd_parameters_present_flag ==> !low_delay_hrd_flag)
      && (!bitstream_restriction_flag ==>
            && !motion_vectors_over_pic_boundaries_flag
            && max_bytes_per_pic_denom == max_bits_per_mb_denom == 0
            && log2_max_mv_length_vertical == log2_max_mv_length_horizontal == 0
            && num_reorder_frames == max_dec_frame_buffering == 0)
    }
  }

  /** The structure after calloc and InitVUI. */
  function InitialVui(): Vui {
    Vui(false, 0, 0, 0, false, false, false, 0, false, false, 0, 0, 2, false, 0, 0, false, 0, 0, false,
        false, ZeroHrd(), false, ZeroHrd(), false, false, false, false, 0, 0, 0, 0, 0, 0)
  }

  // ---------------------------------------------------------------- the syntax of section E.1.1

  function FlagOf(b: bool): Element {
    U(1, if b then 1 else 0)
  }

  function AspectScript(v: Vui, rest: Script): Script {
    Then(FlagOf(v.aspect_ratio_info_present_flag),
    var next := OverscanScript(v, rest);
    if !v.aspect_ratio_info_present_flag then next else
    Then(U(8, v.aspect_ratio_idc),
    if v.aspect_ratio_idc != 255 then next else
    Then(U(16, v.sar_width), Then(U(16, v.sar_height), next))))
  }

  function OverscanScript(v: Vui, rest: Script): Script {
    Then(FlagOf(v.overscan_info_present_flag),
    if v.overscan_info_present_flag then Then(FlagOf(v.overscan_appropriate_flag), rest) else rest)
  }

  function SignalScript(v: Vui, rest: Script): Script {
    Then(FlagOf(v.video_signal_type_present_flag),
    if !v.video_signal_type_present_flag then rest else
    Then(U(3, v.video_format),
    Then(FlagOf(v.video_full_range_flag),
    Then(FlagOf(v.colour_description_present_flag),
    if v.colour_description_present_flag then ColourScript(v, rest) else rest))))
  }

  function ColourScript(v: Vui, rest: Script): Script {
    Then(U(8, v.colour_primaries),
    Then(U(8, v.transfer_characteristics),
    Then(U(8, v.matrix_coefficients), rest)))
  }

  function ChromaScript(v: Vui, rest: Script): Script {
    Then(FlagOf(v.chroma_location_info_present_flag),
    if !v.chroma_location_info_present_flag then rest else
    Then(UE(v.chroma_sample_loc_type_top_field),
    Then(UE(v.chroma_sample_loc_type_bottom_field), rest)))
  }

  function TimingScript(v: Vui, rest: Script): Script {
    Then(FlagOf(v.timing_info_present_flag),
    if !v.timing_info_present_flag then rest else
    Then(U(32, v.num_units_in_tick),
    Then(U(32, v.time_scale),
    Then(FlagOf(v.fixed_frame_rate_flag), rest))))
  }

  function NalHrdScript(v: Vui, rest: Script): Script
    requires v.WellFormed()
  {
    Then(FlagOf(v.nal_hrd_parameters_present_flag),
    if v.nal_hrd_parameters_present_flag then HrdScript(v.nal_hrd_parameters, rest) else rest)
  }

  function VclHrdScript(v: Vui, rest: Script): Script
    requires v.WellFormed()
  {
    Then(FlagOf(v.vcl_hrd_parameters_present_flag),
    if v.vcl_hrd_parameters_present_flag then HrdScript(v.vcl_hrd_parameters, rest) else rest)
  }

  function LowDelayScript(v: Vui, rest: Script): Script {
    if v.nal_hrd_parameters_present_flag || v.vcl_hrd_parameters_present_flag
    then Then(FlagOf(v.low_delay_hrd_flag), rest)
    else rest
  }

  function RestrictionScript(v: Vui, rest: Script): Script {
    Then(FlagOf(v.pic_struct_present_flag),
    Then(FlagOf(v.bitstream_restriction_flag),
    if !v.bitstream_restriction_flag then rest else
    Then(FlagOf(v.motion_vectors_over_pic_boundaries_flag), LimitsScript(v, rest))))
  }

  function LimitsScript(v: Vui, rest: Script): Script {
    Then(UE(v.max_bytes_per_pic_denom),
    Then(UE(v.max_bits_per_mb_denom),
    Then(UE(v.log2_max_mv_length_horizontal),
    Then(UE(v.log2_max_mv_length_vertical),
    Then(UE(v.num_reorder_frames),
    Then(UE(v.max_dec_frame_buffering), rest))))))
  }

  /** The syntax elements of vui_parameters( ), followed by rest. */
  function VuiScript(v: Vui, rest: Script): Script
    requires v.WellFormed()
  {
    PictureScript(v, ClockScript(v, HrdsScript(v, RestrictionScript(v, rest))))
  }

  function PictureScript(v: Vui, rest: Script): Script {
    AspectScript(v, SignalScript(v, rest))
  }

  function ClockScript(v: Vui, rest: Script): Script {
    ChromaScript(v, TimingScript(v, rest))
  }

  function HrdsScript(v: Vui, rest: Script): Script
    requires v.WellFormed()
  {
    NalHrdScript(v, VclHrdScript(v, LowDelayScript(v, rest)))
  }

  // ---------------------------------------------------------------- the structure and its reader

  class VuiParameters {
    var aspect_ratio_info_present_flag: bool
    var aspect_ratio_idc: nat
    var sar_width: nat
    var sar_height: nat
    var overscan_info_present_flag: bool
    var overscan_appropriate_flag: bool
    var video_signal_type_present_flag: bool
    var video_format: nat
    var video_full_range_flag: bool
    var colour_description_present_flag: bool
    var colour_primaries: nat
    var transfer_characteristics: nat
    var matrix_coefficients: nat
    var chroma_location_info_present_flag: bool
    var chroma_sample_loc_type_top_field: nat
    var chroma_sample_loc_type_bottom_field: nat
    var timing_info_present_flag: bool
    var num_units_in_tick: nat
    var time_scale: nat
    var fixed_frame_rate_flag: bool
    var nal_hrd_parameters_present_flag: bool
    const nal_hrd_parameters: HrdParameters
    var vcl_hrd_parameters_present_flag: bool
    const vcl_hrd_parameters: HrdParameters
    var low_delay_hrd_flag: bool
    var pic_struct_present_flag: bool
    var bitstream_restriction_flag: bool
    var motion_vectors_over_pic_boundaries_flag: bool
    var max_bytes_per_pic_denom: nat
    var max_bits_per_mb_denom: nat
    var log2_max_mv_length_vertical: nat
    var log2_max_mv_length_horizontal: nat
    var num_reorder_frames: nat
    var max_dec_frame_buffering: nat

    ghost function Contents(): Vui
      reads this, nal_hrd_parameters, vcl_hrd_parameters
    {
      Vui(aspect_ratio_info_present_flag, aspect_ratio_idc, sar_width, sar_height,
          overscan_info_present_flag, overscan_appropriate_flag,
          video_signal_type_present_flag, video_format, video_full_range_flag,
          colour_description_present_flag, colour_primaries, transfer_characteristics, matrix_coefficients,
          chroma_location_info_present_flag, chroma_sample_loc_type_top_field, chroma_sample_loc_type_bottom_field,
          timing_info_present_flag, num_units_in_tick, time_scale, fixed_frame_rate_flag,
          nal_hrd_parameters_present_flag, nal_hrd_parameters.Contents(),
          vcl_hrd_parameters_present_flag, vcl_hrd_parameters.Contents(), low_delay_hrd_flag,
          pic_struct_present_flag, bitstream_restriction_flag, motion_vectors_over_pic_boundaries_flag,
          max_bytes_per_pic_denom, max_bits_per_mb_denom,
          log2_max_mv_length_vertical, log2_max_mv_length_horizontal,
          num_reorder_frames, max_dec_frame_buffering)
    }

    /** The fields from aspect ratio to matrix coefficients. */
    ghost predicate PictureIs(v: Vui)
      reads `aspect_ratio_info_present_flag, `aspect_ratio_idc, `sar_width, `sar_height
      reads `overscan_info_present_flag, `overscan_appropriate_flag
      reads `video_signal_type_present_flag, `video_format, `video_full_range_flag
      reads `colour_description_present_flag, `colour_primaries, `transfer_characteristics, `matrix_coefficients
    {
      && aspect_ratio_info_present_flag == v.aspect_ratio_info_present_flag
      && aspect_ratio_idc == v.aspect_ratio_idc && sar_width == v.sar_width && sar_height == v.sar_height
      && overscan_info_present_flag == v.overscan_info_present_flag
      && overscan_appropriate_flag == v.overscan_appropriate_flag
      && video_signal_type_present_flag == v.video_signal_type_present_flag
      && video_format == v.video_format && video_full_range_flag == v.video_full_range_flag
      && colour_description_present_flag == v.colour_description_present_flag
      && colour_primaries == v.colour_primaries && transfer_characteristics == v.transfer_characteristics
      && matrix_coefficients == v.matrix_coefficients
    }

    /** The chroma location and timing fields. */
    ghost predicate TimingIs(v: Vui)
      reads `chroma_location_info_present_flag
      reads `chroma_sample_loc_type_top_field, `chroma_sample_loc_type_bottom_field
      reads `timing_info_present_flag, `num_units_in_tick, `time_scale, `fixed_frame_rate_flag
    {
      && chroma_location_info_present_flag == v.chroma_location_info_present_flag
      && chroma_sample_loc_type_top_field == v.chroma_sample_loc_type_top_field
      && chroma_sample_loc_type_bottom_field == v.chroma_sample_loc_type_bottom_field
      && timing_info_present_flag == v.timing_info_present_flag
      && num_units_in_tick == v.num_units_in_tick && time_scale == v.time_scale
      && fixed_frame_rate_flag == v.fixed_frame_rate_flag
    }

    ghost predicate HrdsIs(v: Vui)
      reads `nal_hrd_parameters_present_flag, `vcl_hrd_parameters_present_flag, `low_delay_hrd_flag
      reads nal_hrd_parameters, vcl_hrd_parameters
    {
      && nal_hrd_parameters_present_flag == v.nal_hrd_parameters_present_flag
      && nal_hrd_parameters.Contents() == v.nal_hrd_parameters
      && vcl_hrd_parameters_present_flag == v.vcl_hrd_parameters_present_flag
      && vcl_hrd_parameters.Contents() == v.vcl_hrd_parameters
      && low_delay_hrd_flag == v.low_delay_hrd_flag
    }

    ghost predicate RestrictionIs(v: Vui)
      reads `pic_struct_present_flag, `bitstream_restriction_flag, `motion_vectors_over_pic_boundaries_flag
      reads `max_bytes_per_pic_denom, `max_bits_per_mb_denom
      reads `log2_max_mv_length_vertical, `log2_max_mv_length_horizontal
      reads `num_reorder_frames, `max_dec_frame_buffering
    {
      && pic_struct_present_flag == v.pic_struct_present_flag
      && bitstream_restriction_flag == v.bitstream_restriction_flag
      && motion_vectors_over_pic_boundaries_flag == v.motion_vectors_over_pic_boundaries_flag
      && max_bytes_per_pic_denom == v.max_bytes_per_pic_denom
      && max_bits_per_mb_denom == v.max_bits_per_mb_denom
      && log2_max_mv_length_vertical == v.log2_max_mv_length_vertical
      && log2_max_mv_length_horizontal == v.log2_max_mv_length_horizontal
      && num_reorder_frames == v.num_reorder_frames
      && max_dec_frame_buffering == v.max_dec_frame_buffering
    }

    /** The four groups of fields make up the whole structure. */
    lemma Parts(v: Vui)
      ensures Contents() == v <==> PictureIs(v) && TimingIs(v) && HrdsIs(v) && RestrictionIs(v)
    {
    }

    constructor ()
      ensures nal_hrd_parameters != vcl_hrd_parameters && fresh(nal_hrd_parameters) && fresh(vcl_hrd_parameters)
      ensures Contents() == InitialVui().(matrix_coefficients := 0)
    {
      aspect_ratio_info_present_flag, aspect_ratio_idc, sar_width, sar_height := false, 0, 0, 0;
      overscan_info_present_flag, overscan_appropriate_flag := false, false;
      video_signal_type_present_flag, video_format, video_full_range_flag := false, 0, false;
      colour_description_present_flag, colour_primaries := false, 0;
      transfer_characteristics, matrix_coefficients := 0, 0;
      chroma_location_info_present_flag := false;
      chroma_sample_loc_type_top_field, chroma_sample_loc_type_bottom_field := 0, 0;
      timing_info_present_flag, num_units_in_tick, time_scale, fixed_frame_rate_flag := false, 0, 0, false;
      nal_hrd_parameters_present_flag, vcl_hrd_parameters_present_flag := false, false;
      nal_hrd_parameters := new HrdParameters();
      vcl_hrd_parameters := new HrdParameters();
      low_delay_hrd_flag, pic_struct_present_flag := false, false;
      bitstream_restriction_flag, motion_vectors_over_pic_boundaries_flag := false, false;
      max_bytes_per_pic_denom, max_bits_per_mb_denom := 0, 0;
      log2_max_mv_length_vertical, log2_max_mv_length_horizontal := 0, 0;
      num_reorder_frames, max_dec_frame_buffering := 0, 0;
    }
  }

  method ReadAspectAndOverscan(s: Bitstream, vui: VuiParameters, ghost v: Vui, ghost rest: Script)
    requires v.WellFormed() && s.Valid() && s.ahead == AspectScript(v, rest)
    requires vui.aspect_ratio_idc == vui.sar_width == vui.sar_height == 0 && !vui.overscan_appropriate_flag
    modifies vui`aspect_ratio_info_present_flag, vui`aspect_ratio_idc, vui`sar_width, vui`sar_height,
             vui`overscan_info_present_flag, vui`overscan_appropriate_flag, s`frame_bitoffset, s`ahead
    ensures vui.aspect_ratio_info_present_flag == v.aspect_ratio_info_present_flag
    ensures vui.aspect_ratio_idc == v.aspect_ratio_idc
    ensures vui.sar_width == v.sar_width && vui.sar_height == v.sar_height
    ensures vui.overscan_info_present_flag == v.overscan_info_present_flag
    ensures vui.overscan_appropriate_flag == v.overscan_appropriate_flag
    ensures s.Valid() && s.ahead == rest && s.EndOffset() == old(s.EndOffset())
  {
    hide Bitstream.Valid, Bitstream.EndOffset;
    vui.aspect_ratio_info_present_flag := s.Flag();
    if vui.aspect_ratio_info_present_flag {
      vui.aspect_ratio_idc := s.UVUnsigned(8);
      if 255 == vui.aspect_ratio_idc {
        var width := s.UShort();
        vui.sar_width := width;
        var height := s.UShort();
        vui.sar_height := height;
      }
    }
    vui.overscan_info_present_flag := s.Flag();
    if vui.overscan_info_present_flag {
      vui.overscan_appropriate_flag := s.Flag();
    }
  }

  method ReadVideoSignal(s: Bitstream, vui: VuiParameters, ghost v: Vui, ghost rest: Script)
    requires v.WellFormed() && s.Valid() && s.ahead == SignalScript(v, rest)
    requires vui.video_format == 0 && !vui.video_full_range_flag && !vui.colour_description_present_flag
    requires vui.colour_primaries == vui.transfer_characteristics == 0 && vui.matrix_coefficients == 2
    modifies vui`video_signal_type_present_flag, vui`video_format, vui`video_full_range_flag,
             vui`colour_description_present_flag, vui`colour_primaries, vui`transfer_characteristics,
             vui`matrix_coefficients, s`frame_bitoffset, s`ahead
    ensures vui.video_signal_type_present_flag == v.video_signal_type_present_flag
    ensures vui.video_format == v.video_format && vui.video_full_range_flag == v.video_full_range_flag
    ensures vui.colour_description_present_flag == v.colour_description_present_flag
    ensures vui.colour_primaries == v.colour_primaries
    ensures vui.transfer_characteristics == v.transfer_characteristics
    ensures vui.matrix_coefficients == v.matrix_coefficients
    ensures s.Valid() && s.ahead == rest && s.EndOffset() == old(s.EndOffset())
  {
    hide Bitstream.Valid, Bitstream.EndOffset;
    vui.video_signal_type_present_flag := s.Flag();
    if vui.video_signal_type_present_flag {
      vui.video_format := s.UVUnsigned(3);
      vui.video_full_range_flag := s.Flag();
      vui.colour_description_present_flag := s.Flag();
      if vui.colour_description_present_flag {
        ReadColour(s, vui, v, rest);
      }
    }
  }

  method ReadColour(s: Bitstream, vui: VuiParameters, ghost v: Vui, ghost rest: Script)
    requires s.Valid() && s.ahead == ColourScript(v, rest)
    modifies vui`colour_primaries, vui`transfer_characteristics, vui`matrix_coefficients, s`frame_bitoffset, s`ahead
    ensures vui.colour_primaries == v.colour_primaries
    ensures vui.transfer_characteristics == v.transfer_characteristics
    ensures vui.matrix_coefficients == v.matrix_coefficients
    ensures s.Valid() && s.ahead == rest && s.EndOffset() == old(s.EndOffset())
  {
    hide Bitstream.Valid, Bitstream.EndOffset;
    vui.colour_primaries := s.UVUnsigned(8);
    vui.transfer_characteristics := s.UVUnsigned(8);
    vui.matrix_coefficients := s.UVUnsigned(8);
  }

  method ReadChromaLocation(s: Bitstream, vui: VuiParameters, ghost v: Vui, ghost rest: Script)
    requires v.WellFormed() && s.Valid() && s.ahead == ChromaScript(v, rest)
    requires vui.chroma_sample_loc_type_top_field == vui.chroma_sample_loc_type_bottom_field == 0
    modifies vui`chroma_location_info_present_flag, vui`chroma_sample_loc_type_top_field,
             vui`chroma_sample_loc_type_bottom_field, s`frame_bitoffset, s`ahead
    ensures vui.chroma_location_info_present_flag == v.chroma_location_info_present_flag
    ensures vui.chroma_sample_loc_type_top_field == v.chroma_sample_loc_type_top_field
    ensures vui.chroma_sample_loc_type_bottom_field == v.chroma_sample_loc_type_bottom_field
    ensures s.Valid() && s.ahead == rest && s.EndOffset() == old(s.EndOffset())
  {
    hide Bitstream.Valid, Bitstream.EndOffset;
    vui.chroma_location_info_present_flag := s.Flag();
    if vui.chroma_location_info_present_flag {
      vui.chroma_sample_loc_type_top_field := s.UeUnsigned();
      vui.chroma_sample_loc_type_bottom_field := s.UeUnsigned();
    }
  }

  method ReadTiming(s: Bitstream, vui: VuiParameters, ghost v: Vui, ghost rest: Script)
    requires v.WellFormed() && s.Valid() && s.ahead == TimingScript(v, rest)
    requires vui.num_units_in_tick == vui.time_scale == 0 && !vui.fixed_frame_rate_flag
    modifies vui`timing_info_present_flag, vui`num_units_in_tick, vui`time_scale, vui`fixed_frame_rate_flag,
             s`frame_bitoffset, s`ahead
    ensures vui.timing_info_present_flag == v.timing_info_present_flag
    ensures vui.num_units_in_tick == v.num_units_in_tick && vui.time_scale == v.time_scale
    ensures vui.fixed_frame_rate_flag == v.fixed_frame_rate_flag
    ensures s.Valid() && s.ahead == rest && s.EndOffset() == old(s.EndOffset())
  {
    hide Bitstream.Valid, Bitstream.EndOffset;
    vui.timing_info_present_flag := s.Flag();
    if vui.timing_info_present_flag {
      vui.num_units_in_tick := s.UVUnsigned(32);
      vui.time_scale := s.UVUnsigned(32);
      vui.fixed_frame_rate_flag := s.Flag();
    }
  }

  method ReadHrds(s: Bitstream, vui: VuiParameters, ghost v: Vui, ghost rest: Script)
    requires v.WellFormed() && s.Valid() && s.ahead == HrdsScript(v, rest)
    requires vui.nal_hrd_parameters != vui.vcl_hrd_parameters
    requires vui.HrdsIs(InitialVui())
    modifies vui`nal_hrd_parameters_present_flag, vui`vcl_hrd_parameters_present_flag, vui`low_delay_hrd_flag,
             vui.nal_hrd_parameters, vui.vcl_hrd_parameters, s`frame_bitoffset, s`ahead
    ensures vui.HrdsIs(v)
    ensures s.Valid() && s.ahead == rest && s.EndOffset() == old(s.EndOffset())
  {
    hide Bitstream.Valid, Bitstream.EndOffset, HrdScript, ZeroHrd, Hrd.WellFormed, HrdParameters.Contents;
    vui.nal_hrd_parameters_present_flag := s.Flag();
    if vui.nal_hrd_parameters_present_flag {
      var r := ReadHRDParameters(s, vui.nal_hrd_parameters, v.nal_hrd_parameters,
                                 VclHrdScript(v, LowDelayScript(v, rest)));
    }
    vui.vcl_hrd_parameters_present_flag := s.Flag();
    if vui.vcl_hrd_parameters_present_flag {
      var r := ReadHRDParameters(s, vui.vcl_hrd_parameters, v.vcl_hrd_parameters, LowDelayScript(v, rest));
    }
    if vui.nal_hrd_parameters_present_flag || vui.vcl_hrd_parameters_present_flag {
      vui.low_delay_hrd_flag := s.Flag();
    }
  }

  method ReadRestriction(s: Bitstream, vui: VuiParameters, ghost v: Vui, ghost rest: Script)
    requires v.WellFormed() && s.Valid() && s.ahead == RestrictionScript(v, rest)
    requires vui.RestrictionIs(InitialVui())
    modifies vui`pic_struct_present_flag, vui`bitstream_restriction_flag, vui`motion_vectors_over_pic_boundaries_flag,
             vui`max_bytes_per_pic_denom, vui`max_bits_per_mb_denom, vui`log2_max_mv_length_vertical,
             vui`log2_max_mv_length_horizontal, vui`num_reorder_frames, vui`max_dec_frame_buffering,
             s`frame_bitoffset, s`ahead
    ensures vui.RestrictionIs(v)
    ensures s.Valid() && s.ahead == rest && s.EndOffset() == old(s.EndOffset())
  {
    hide Bitstream.Valid, Bitstream.EndOffset;
    vui.pic_struct_present_flag := s.Flag();
    vui.bitstream_restriction_flag := s.Flag();
    if vui.bitstream_restriction_flag {
      vui.motion_vectors_over_pic_boundaries_flag := s.Flag();
      ReadLimits(s, vui, v, rest);
    }
  }

  method ReadLimits(s: Bitstream, vui: VuiParameters, ghost v: Vui, ghost rest: Script)
    requires s.Valid() && s.ahead == LimitsScript(v, rest)
    modifies vui`max_bytes_per_pic_denom, vui`max_bits_per_mb_denom, vui`log2_max_mv_length_vertical,
             vui`log2_max_mv_length_horizontal, vui`num_reorder_frames, vui`max_dec_frame_buffering,
             s`frame_bitoffset, s`ahead
    ensures vui.max_bytes_per_pic_denom == v.max_bytes_per_pic_denom
    ensures vui.max_bits_per_mb_denom == v.max_bits_per_mb_denom
    ensures vui.log2_max_mv_length_vertical == v.log2_max_mv_length_vertical
    ensures vui.log2_max_mv_length_horizontal == v.log2_max_mv_length_horizontal
    ensures vui.num_reorder_frames == v.num_reorder_frames
    ensures vui.max_dec_frame_buffering == v.max_dec_frame_buffering
    ensures s.Valid() && s.ahead == rest && s.EndOffset() == old(s.EndOffset())
  {
    hide Bitstream.Valid, Bitstream.EndOffset;
    vui.max_bytes_per_pic_denom := s.UeUnsigned();
    vui.max_bits_per_mb_denom := s.UeUnsigned();
    vui.log2_max_mv_length_horizontal := s.UeUnsigned();
    vui.log2_max_mv_length_vertical := s.UeUnsigned();
    vui.num_reorder_frames := s.UeUnsigned();
    vui.max_dec_frame_buffering := s.UeUnsigned();
  }

  /** ReadVUI up to the video signal type. */
  method ReadPicture(s: Bitstream, vui: VuiParameters, ghost v: Vui, ghost rest: Script)
    requires v.WellFormed() && s.Valid() && s.ahead == PictureScript(v, rest)
    requires vui.PictureIs(InitialVui())
    modifies vui`aspect_ratio_info_present_flag, vui`aspect_ratio_idc, vui`sar_width, vui`sar_height,
             vui`overscan_info_present_flag, vui`overscan_appropriate_flag,
             vui`video_signal_type_present_flag, vui`video_format, vui`video_full_range_flag,
             vui`colour_description_present_flag, vui`colour_primaries, vui`transfer_characteristics,
             vui`matrix_coefficients, s`frame_bitoffset, s`ahead
    ensures vui.PictureIs(v)
    ensures s.Valid() && s.ahead == rest && s.EndOffset() == old(s.EndOffset())
  {
    hide Bitstream.Valid, Bitstream.EndOffset, ZeroHrd, Vui.WellFormed, AspectScript, SignalScript;
    ReadAspectAndOverscan(s, vui, v, SignalScript(v, rest));
    ReadVideoSignal(s, vui, v, rest);
  }

  /** ReadVUI from the chroma location to the timing information. */
  method ReadClock(s: Bitstream, vui: VuiParameters, ghost v: Vui, ghost rest: Script)
    requires v.WellFormed() && s.Valid() && s.ahead == ClockScript(v, rest)
    requires vui.TimingIs(InitialVui())
    modifies vui`chroma_location_info_present_flag,
             vui`chroma_sample_loc_type_top_field, vui`chroma_sample_loc_type_bottom_field,
             vui`timing_info_present_flag, vui`num_units_in_tick, vui`time_scale, vui`fixed_frame_rate_flag,
             s`frame_bitoffset, s`ahead
    ensures vui.TimingIs(v)
    ensures s.Valid() && s.ahead == rest && s.EndOffset() == old(s.EndOffset())
  {
    hide Bitstream.Valid, Bitstream.EndOffset, ZeroHrd, Vui.WellFormed, ChromaScript, TimingScript;
    ReadChromaLocation(s, vui, v, TimingScript(v, rest));
    ReadTiming(s, vui, v, rest);
  }

  /** ReadVUI: the body of its if statement, in the order of the source. */
  method ReadVUI(s: Bitstream, present: bool, vui: VuiParameters, ghost v: Vui, ghost rest: Script) returns (r: int)
    requires v.WellFormed() && s.Valid()
    requires if present then s.ahead == VuiScript(v, rest) else s.ahead == rest && v == InitialVui()
    requires vui.nal_hrd_parameters != vui.vcl_hrd_parameters && vui.Contents() == InitialVui()
    modifies vui, vui.nal_hrd_parameters, vui.vcl_hrd_parameters, s`frame_bitoffset, s`ahead
    ensures r == 0 && vui.Contents() == v
    ensures s.Valid() && s.ahead == rest && s.EndOffset() == old(s.EndOffset())
  {
    hide Bitstream.Valid, Bitstream.EndOffset, InitialVui, Vui.WellFormed;
    hide PictureScript, ClockScript, HrdsScript, RestrictionScript;
    hide VuiParameters.PictureIs, VuiParameters.TimingIs, VuiParameters.HrdsIs, VuiParameters.RestrictionIs;
    hide VuiParameters.Contents;
    vui.Parts(InitialVui());
    if present {
      ReadPicture(s, vui, v, ClockScript(v, HrdsScript(v, RestrictionScript(v, rest))));
      ReadClock(s, vui, v, HrdsScript(v, RestrictionScript(v, rest)));
      ReadHrds(s, vui, v, RestrictionScript(v, rest));
      ReadRestriction(s, vui, v, rest);
    }
    vui.Parts(v);
    return 0;
  }
}
