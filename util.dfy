/**
  * `getCorrectArrayBuffer`: the `ArrayBuffer` sent to the webview for a
  * `Uint8Array`, which may be a view onto part of a larger buffer.
  * Buffers are modelled by their bytes.
  */
module Util {
  import opened Prelude
  import opened JsBuiltins

  /** A `Uint8Array`: a window of `byteLength` bytes at `byteOffset` of `buffer`. */
  datatype Uint8Array = Uint8Array(buffer: seq<byte>, byteOffset: nat, byteLength: nat)
  {
    /** A typed array never reaches past its buffer. */
    predicate Valid()
    {
      byteOffset + byteLength <= |buffer|
    }

    /** The bytes the view shows. */
    function Contents(): seq<byte>
      requires Valid()
    {
      buffer[byteOffset..byteOffset + byteLength]
    }
  }

  /**
    * `getCorrectArrayBuffer` as written: the buffer itself when the view
    * spans it, otherwise a copy of its first `byteLength` bytes. That is
    * the view's contents only when the view starts at offset 0.
    */
  function GetCorrectArrayBufferAsWritten(u8: Uint8Array): (r: seq<byte>)
    requires u8.Valid()
    ensures |r| == u8.byteLength
    ensures u8.byteLength == |u8.buffer| ==> r == u8.buffer
    ensures r == u8.buffer[..u8.byteLength]
    ensures u8.byteOffset == 0 ==> r == u8.Contents()
  {
    if u8.byteLength == |u8.buffer| then u8.buffer else Slice(u8.buffer, 0, u8.byteLength)
  }

  /** A view of byte 1 of the buffer `[1, 2]` is sent as `[1]`, not `[2]`. */
  lemma OffsetViewSendsWrongBytes()
    ensures var u8 := Uint8Array([1, 2], 1, 1);
            GetCorrectArrayBufferAsWritten(u8) == [1] && u8.Contents() == [2]
  {
    var u8 := Uint8Array([1, 2], 1, 1);
    assert Slice(u8.buffer, 0, 1) == [1];
  }

  /**
    * The copy taken from the view's own offset: always exactly the bytes the
    * view shows, and the buffer itself when the view spans it.
    */
  function GetCorrectArrayBuffer(u8: Uint8Array): (r: seq<byte>)
    requires u8.Valid()
    ensures r == u8.Contents()
    ensures u8.byteLength == |u8.buffer| ==> r == u8.buffer
  {
    if u8.byteLength == |u8.buffer| then u8.buffer
    else Slice(u8.buffer, u8.byteOffset, u8.byteOffset + u8.byteLength)
  }

  /** For views at offset 0, which is all `readBuffer` returns, both versions agree. */
  lemma AgreeAtOffsetZero(u8: Uint8Array)
    requires u8.Valid() && u8.byteOffset == 0
    ensures GetCorrectArrayBufferAsWritten(u8) == GetCorrectArrayBuffer(u8)
  {
  }
}
