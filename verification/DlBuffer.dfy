// The growing download buffer of libhlsanalysis/src/DlBuffer.cpp.
module DownloadBuffer {

  const CHUNK: int := 3850240 * 2
  const MAX_BUFFER_SIZE: int := 3850240 * 10

  /** The largest total that chunks of at most CHUNK bytes can reach: four times CHUNK. */
  const LIMIT: int := 30801920

  // ---------------------------------------------------------------- what a run of calls leaves behind

  datatype Call = Append(chunk: seq<bv8>) | Reset

  /** Contents and error flag after a run of calls whose chunks are all small. */
  function After(calls: seq<Call>): (seq<bv8>, bool) {
    if calls == [] then ([], false) else
      var (contents, error) := After(calls[..|calls| - 1]);
      match calls[|calls| - 1]
      case Reset => ([], false)
      case Append(chunk) =>
        if error then (contents, true)
        else if |contents| + |chunk| > LIMIT then (contents, true)
        else (contents + chunk, false)
  }

  lemma AfterOne(calls: seq<Call>, c: Call)
    ensures After(calls + [c]) ==
              var (contents, error) := After(calls);
              if c.Reset? then ([], false)
              else if error || |contents| + |c.chunk| > LIMIT then (contents, true)
              else (contents + c.chunk, false)
  {
    assert (calls + [c])[..|calls|] == calls;
  }

  predicate Small(calls: seq<Call>) {
    forall c <- calls :: c.Append? ==> |c.chunk| <= CHUNK
  }

  /** The chunks offered since the last reset. */
  function Since(calls: seq<Call>): seq<seq<bv8>> {
    if calls == [] || calls[|calls| - 1].Reset? then [] else
    Since(calls[..|calls| - 1]) + [calls[|calls| - 1].chunk]
  }

  function Joined(chunks: seq<seq<bv8>>): seq<bv8> {
    if chunks == [] then [] else Joined(chunks[..|chunks| - 1]) + chunks[|chunks| - 1]
  }

  /**
   * The contents are the chunks since the last reset up to, not including, the first one that would
   * take the total over the limit; the error flag tells whether there was one.
   */
  lemma {:induction false} ContentsSinceReset(calls: seq<Call>) returns (k: nat)
    ensures var chunks := Since(calls);
            && k <= |chunks|
            && After(calls) == (Joined(chunks[..k]), k < |chunks|)
            && |Joined(chunks[..k])| <= LIMIT
            && (k < |chunks| ==> |Joined(chunks[..k])| + |chunks[k]| > LIMIT)
  {
    if calls == [] || calls[|calls| - 1].Reset? {
      k := 0;
    } else {
      var before, chunk := calls[..|calls| - 1], calls[|calls| - 1].chunk;
      k := ContentsSinceReset(before);
      var chunks := Since(before);
      assert (chunks + [chunk])[..k] == chunks[..k];
      if k == |chunks| && |Joined(chunks)| + |chunk| <= LIMIT {
        assert chunks[..k] == chunks;
        assert (chunks + [chunk])[..k + 1] == chunks + [chunk];
        assert (chunks + [chunk])[..|chunks|] == chunks;
        k := k + 1;
      } else if k == |chunks| {
        assert chunks[..k] == chunks;
      }
    }
  }

  // ---------------------------------------------------------------- the buffer

  class CDlBuffer {
    var m_pBuffer: array<bv8>
    var m_nBufferSize: int
    var m_bError: bool
    var m_nDataLen: int
    ghost var calls: seq<Call>     // all calls since construction

    ghost function Contents(): seq<bv8>
      requires 0 <= m_nDataLen <= m_pBuffer.Length
      reads this, m_pBuffer
    {
      m_pBuffer[..m_nDataLen]
    }

    ghost predicate Valid()
      reads this, m_pBuffer
    {
      && m_pBuffer.Length == m_nBufferSize < MAX_BUFFER_SIZE
      && 0 <= m_nDataLen <= m_nBufferSize && CHUNK <= m_nBufferSize
      && (Small(calls) ==> m_nBufferSize % CHUNK == 0 && After(calls) == (Contents(), m_bError))
    }

    constructor ()
      ensures Valid() && !m_bError && Contents() == [] && calls == []
      ensures fresh(m_pBuffer)
    {
      m_nBufferSize := CHUNK;
      m_pBuffer := new bv8[CHUNK];
      m_nDataLen, m_bError, calls := 0, false, [];
    }

    /** The size the buffer grows to for a chunk that does not fit. */
    function NewSize(nLen: int): int
      reads `m_nBufferSize
    {
      if nLen > CHUNK then m_nBufferSize + nLen else m_nBufferSize + CHUNK
    }

    /** Moves the contents to a new buffer of newsize bytes, the chunk behind them. */
    method MoveAndStore(newsize: int, pData: seq<bv8>)
      requires 0 <= m_nDataLen <= m_pBuffer.Length && m_nDataLen + |pData| <= newsize
      modifies `m_pBuffer, `m_nBufferSize, `m_nDataLen
      ensures fresh(m_pBuffer) && m_pBuffer.Length == newsize == m_nBufferSize
      ensures m_nDataLen == old(m_nDataLen) + |pData|
      ensures Contents() == old(Contents()) + pData
    {
      var pTmp := new bv8[newsize];
      forall i | 0 <= i < m_nDataLen {
        pTmp[i] := m_pBuffer[i];
      }
      forall i | 0 <= i < |pData| {
        pTmp[m_nDataLen + i] := pData[i];
      }
      assert pTmp[..m_nDataLen + |pData|] == m_pBuffer[..m_nDataLen] + pData;
      m_pBuffer := pTmp;
      m_nBufferSize := newsize;
      m_nDataLen := m_nDataLen + |pData|;
    }

    /** Copies the chunk behind the contents. */
    method StoreInPlace(pData: seq<bv8>)
      requires 0 <= m_nDataLen && m_nDataLen + |pData| <= m_pBuffer.Length
      modifies m_pBuffer, `m_nDataLen
      ensures m_nDataLen == old(m_nDataLen) + |pData|
      ensures Contents() == old(Contents()) + pData
    {
      forall i | 0 <= i < |pData| {
        m_pBuffer[m_nDataLen + i] := pData[i];
      }
      m_nDataLen := m_nDataLen + |pData|;
      assert Contents() == old(Contents()) + pData;
    }

    /**
     * Appends a chunk, growing the buffer when it does not fit. A refusal changes nothing but the
     * error flag. When all chunks so far are at most CHUNK bytes, the chunk is refused exactly when
     * the total would exceed LIMIT or an earlier refusal has not been reset. The size the buffer
     * would grow to must be an `int`.
     */
    method Append(pData: seq<bv8>, nLen: int) returns (ok: bool)
      requires Valid() && 0 <= nLen == |pData| && nLen < 0x8000_0000
      requires !m_bError && m_nBufferSize - m_nDataLen < nLen ==> NewSize(nLen) < 0x8000_0000
      modifies this, m_pBuffer
      ensures Valid() && calls == old(calls) + [Call.Append(pData)]
      ensures fresh(m_pBuffer) || m_pBuffer == old(m_pBuffer)
      ensures m_bError == !ok
      ensures Contents() == if ok then old(Contents()) + pData else old(Contents())
      ensures ok <==> !old(m_bError)
                      && (old(m_nDataLen) + nLen <= old(m_nBufferSize) || old(NewSize(nLen)) < MAX_BUFFER_SIZE)
      ensures Small(calls) ==> (ok <==> !old(m_bError) && old(|Contents()|) + nLen <= LIMIT)
    {
      hide After, Small;
      AfterOne(calls, Call.Append(pData));
      SmallPrefix(calls, Call.Append(pData));
      RefusedIffOverLimit(m_nBufferSize, m_nDataLen, nLen);
      calls := calls + [Call.Append(pData)];
      if m_bError {
        return false;
      }
      if m_nBufferSize - m_nDataLen < nLen {
        var newsize := m_nBufferSize + CHUNK;
        if nLen > CHUNK {
          newsize := m_nBufferSize + nLen;
        }
        if newsize >= MAX_BUFFER_SIZE {
          m_bError := true;
          return false;
        }
        MoveAndStore(newsize, pData);
      } else {
        StoreInPlace(pData);
      }
      return true;
    }

    method ResetData()
      requires Valid()
      modifies `m_nDataLen, `m_bError, `calls
      ensures Valid() && calls == old(calls) + [Reset]
      ensures Contents() == [] && !m_bError && m_nBufferSize == old(m_nBufferSize)
    {
      AfterOne(calls, Reset);
      SmallPrefix(calls, Reset);
      calls := calls + [Reset];
      m_nDataLen := 0;
      m_bError := false;
    }
  }

  /** With chunks of at most CHUNK bytes a buffer that cannot grow is one LIMIT does not allow to. */
  lemma RefusedIffOverLimit(size: int, used: int, len: int)
    ensures size % CHUNK == 0 && 0 < size < MAX_BUFFER_SIZE && 0 <= used <= size && 0 <= len <= CHUNK ==>
              && (used + len <= size ==> used + len <= LIMIT)
              && (used + len > size ==> (size + CHUNK >= MAX_BUFFER_SIZE <==> used + len > LIMIT))
              && (size + CHUNK) % CHUNK == 0
  {
    if size % CHUNK == 0 && 0 < size < MAX_BUFFER_SIZE {
      var n := size / CHUNK;
      assert size == n * 7700480;
      assert 0 < n < 5;
      assert size + CHUNK == (n + 1) * CHUNK;
    }
  }

  lemma SmallPrefix(calls: seq<Call>, c: Call)
    ensures Small(calls + [c]) <==> Small(calls) && (c.Append? ==> |c.chunk| <= CHUNK)
  {
    if Small(calls + [c]) {
      assert forall d :: d in calls ==> d in calls + [c];
      assert c in calls + [c];
    }
  }
}
