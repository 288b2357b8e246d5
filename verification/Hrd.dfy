// HRD parameters: section E.1.2 of ITU-T H.264, read by ReadHRDParameters of common/jmdec.cpp.
module HrdSyntax {
  import opened Bits
  import opened BitReader

  const MAXIMUMVALUEOFcpb_cnt: nat := 32

  datatype Hrd = Hrd(
    cpb_cnt_minus1: nat,
    bit_rate_scale: nat,
    cpb_size_scale: nat,
    bit_rate_value_minus1: seq<nat>,
    cpb_size_value_minus1: seq<nat>,
    cbr_flag: seq<nat>,
    initial_cpb_removal_delay_length_minus1: nat,
    cpb_removal_delay_length_minus1: nat,
    dpb_output_delay_length_minus1: nat,
    time_offset_length: nat)
  {
    /** The counts fit the arrays, and the entries that are not coded are zero. */
    predicate WellFormed() {
      && cpb_cnt_minus1 < MAXIMUMVALUEOFcpb_cnt
      && |bit_rate_value_minus1| == |cpb_size_value_minus1| == |cbr_flag| == MAXIMUMVALUEOFcpb_cnt
      && (forall i :: cpb_cnt_minus1 < i < MAXIMUMVALUEOFcpb_cnt ==>
            bit_rate_value_minus1[i] == 0 && cpb_size_value_minus1[i] == 0 && cbr_flag[i] == 0)
    }
  }

  function ZeroTable(): seq<nat> {
    seq(MAXIMUMVALUEOFcpb_cnt, _ => 0)
  }

  /** The first i entries of a table have been read, the others are still zero. */
  predicate Filled(table: seq<nat>, full: seq<nat>, i: nat) {
    && |table| == |full| == MAXIMUMVALUEOFcpb_cnt
    && (forall k :: 0 <= k < |table| ==> table[k] == if k < i then full[k] else 0)
  }

  function ZeroHrd(): Hrd {
    Hrd(0, 0, 0, ZeroTable(), ZeroTable(), ZeroTable(), 0, 0, 0, 0)
  }

  /** The syntax elements of hrd_parameters( ), followed by rest. */
  function HrdScript(h: Hrd, rest: Script): Script
    requires h.WellFormed()
  {
    Then(UE(h.cpb_cnt_minus1),
    Then(U(4, h.bit_rate_scale),
    Then(U(4, h.cpb_size_scale),
    CpbScript(h, 0, DelayScript(h, rest)))))
  }

  function DelayScript(h: Hrd, rest: Script): Script {
    Then(U(5, h.initial_cpb_removal_delay_length_minus1),
    Then(U(5, h.cpb_removal_delay_length_minus1),
    Then(U(5, h.dpb_output_delay_length_minus1),
    Then(U(5, h.time_offset_length), rest))))
  }

  function CpbScript(h: Hrd, i: nat, rest: Script): Script
    requires h.WellFormed()
    requires i <= h.cpb_cnt_minus1 + 1
    decreases h.cpb_cnt_minus1 + 1 - i
  {
    if i > h.cpb_cnt_minus1 then rest else
    Then(UE(h.bit_rate_value_minus1[i]),
    Then(UE(h.cpb_size_value_minus1[i]),
    Then(U(1, h.cbr_flag[i]),
    CpbScript(h, i + 1, rest))))
  }

  class HrdParameters {
    var cpb_cnt_minus1: nat
    var bit_rate_scale: nat
    var cpb_size_scale: nat
    var bit_rate_value_minus1: seq<nat>
    var cpb_size_value_minus1: seq<nat>
    var cbr_flag: seq<nat>
    var initial_cpb_removal_delay_length_minus1: nat
    var cpb_removal_delay_length_minus1: nat
    var dpb_output_delay_length_minus1: nat
    var time_offset_length: nat

    ghost function Contents(): Hrd
      reads this
    {
      Hrd(cpb_cnt_minus1, bit_rate_scale, cpb_size_scale, bit_rate_value_minus1, cpb_size_value_minus1, cbr_flag,
          initial_cpb_removal_delay_length_minus1, cpb_removal_delay_length_minus1, dpb_output_delay_length_minus1,
          time_offset_length)
    }

    constructor ()
      ensures Contents() == ZeroHrd()
    {
      cpb_cnt_minus1, bit_rate_scale, cpb_size_scale := 0, 0, 0;
      bit_rate_value_minus1, cpb_size_value_minus1, cbr_flag := ZeroTable(), ZeroTable(), ZeroTable();
      initial_cpb_removal_delay_length_minus1, cpb_removal_delay_length_minus1 := 0, 0;
      dpb_output_delay_length_minus1, time_offset_length := 0, 0;
    }
  }

  method ReadHRDParameters(s: Bitstream, hrd: HrdParameters, ghost h: Hrd, ghost rest: Script) returns (r: int)
    requires h.WellFormed() && s.Valid() && s.ahead == HrdScript(h, rest)
    requires hrd.Contents() == ZeroHrd()
    modifies hrd, s`frame_bitoffset, s`ahead
    ensures r == 0 && hrd.Contents() == h
    ensures s.Valid() && s.ahead == rest && s.EndOffset() == old(s.EndOffset())
  {
    hide Bitstream.Valid, Bitstream.EndOffset, ZeroTable, CpbScript, DelayScript, Hrd.WellFormed;
    hrd.cpb_cnt_minus1 := s.UeUnsigned();
    hrd.bit_rate_scale := s.UVUnsigned(4);
    hrd.cpb_size_scale := s.UVUnsigned(4);
    ReadCpbs(s, hrd, h, DelayScript(h, rest));
    ReadDelays(s, hrd, h, rest);
    return 0;
  }

  method ReadDelays(s: Bitstream, hrd: HrdParameters, ghost h: Hrd, ghost rest: Script)
    requires s.Valid() && s.ahead == DelayScript(h, rest)
    modifies hrd`initial_cpb_removal_delay_length_minus1, hrd`cpb_removal_delay_length_minus1,
             hrd`dpb_output_delay_length_minus1, hrd`time_offset_length, s`frame_bitoffset, s`ahead
    ensures hrd.initial_cpb_removal_delay_length_minus1 == h.initial_cpb_removal_delay_length_minus1
    ensures hrd.cpb_removal_delay_length_minus1 == h.cpb_removal_delay_length_minus1
    ensures hrd.dpb_output_delay_length_minus1 == h.dpb_output_delay_length_minus1
    ensures hrd.time_offset_length == h.time_offset_length
    ensures s.Valid() && s.ahead == rest && s.EndOffset() == old(s.EndOffset())
  {
    hide Bitstream.Valid, Bitstream.EndOffset;
    hrd.initial_cpb_removal_delay_length_minus1 := s.UVUnsigned(5);
    hrd.cpb_removal_delay_length_minus1 := s.UVUnsigned(5);
    hrd.dpb_output_delay_length_minus1 := s.UVUnsigned(5);
    hrd.time_offset_length := s.UVUnsigned(5);
  }

  /** The loop of ReadHRDParameters over the coded picture buffers. */
  method ReadCpbs(s: Bitstream, hrd: HrdParameters, ghost h: Hrd, ghost rest: Script)
    requires h.WellFormed() && s.Valid() && s.ahead == CpbScript(h, 0, rest)
    requires hrd.cpb_cnt_minus1 == h.cpb_cnt_minus1
    requires hrd.bit_rate_value_minus1 == hrd.cpb_size_value_minus1 == hrd.cbr_flag == ZeroTable()
    modifies hrd`bit_rate_value_minus1, hrd`cpb_size_value_minus1, hrd`cbr_flag, s`frame_bitoffset, s`ahead
    ensures hrd.bit_rate_value_minus1 == h.bit_rate_value_minus1
    ensures hrd.cpb_size_value_minus1 == h.cpb_size_value_minus1
    ensures hrd.cbr_flag == h.cbr_flag
    ensures s.Valid() && s.ahead == rest && s.EndOffset() == old(s.EndOffset())
  {
    hide Bitstream.Valid, Bitstream.EndOffset;
    var i := 0;
    while i <= hrd.cpb_cnt_minus1 && i < MAXIMUMVALUEOFcpb_cnt
      invariant 0 <= i <= h.cpb_cnt_minus1 + 1
      invariant s.Valid() && s.ahead == CpbScript(h, i, rest) && s.EndOffset() == old(s.EndOffset())
      invariant Filled(hrd.bit_rate_value_minus1, h.bit_rate_value_minus1, i)
      invariant Filled(hrd.cpb_size_value_minus1, h.cpb_size_value_minus1, i)
      invariant Filled(hrd.cbr_flag, h.cbr_flag, i)
    {
      var bitRate := s.UeUnsigned();
      hrd.bit_rate_value_minus1 := hrd.bit_rate_value_minus1[i := bitRate];
      var cpbSize := s.UeUnsigned();
      hrd.cpb_size_value_minus1 := hrd.cpb_size_value_minus1[i := cpbSize];
      var cbr := s.UVUnsigned(1);
      hrd.cbr_flag := hrd.cbr_flag[i := cbr];
      i := i + 1;
    }
  }
}
