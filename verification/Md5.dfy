/** MD5: the block function run as a stream. */
module Md5 {
  import opened Bytes
  import opened Md5Block
  import opened HashStream

  const MD5: Hash<Chain> := Hash((r, block) => Block(r, block), INIT, Chain(0, 0, 0, 0))

  /** OUT: the registers, each with its least significant byte first. */
  function Digest(r: Chain): (d: seq<byte>)
    ensures |d| == 16
  {
    ToLE(r.a as int, 4) + ToLE(r.b as int, 4) + ToLE(r.c as int, 4) + ToLE(r.d as int, 4)
  }

  lemma NextPiece(pieces: seq<seq<byte>>, i: nat)
    requires i < |pieces|
    ensures Flatten(pieces[..i + 1]) == Flatten(pieces[..i]) + pieces[i]
  {
    assert pieces[..i + 1] == pieces[..i] + [pieces[i]];
    FlattenOneMore(pieces[..i], pieces[i]);
  }

  /** md5_init, any number of md5_update, md5_final: the digest is the message's, however it was cut. */
  method DigestOf(pieces: seq<seq<byte>>) returns (result: seq<byte>)
    ensures result == Digest(Blocks(MD5, INIT, Padded(Flatten(pieces))))
  {
    hide *;
    var ctx := new Context(MD5);
    var i: nat := 0;
    PiecesEnd(pieces);
    while i < |pieces|
      invariant i <= |pieces| && ctx.Valid() && ctx.h == MD5 && fresh(ctx) && fresh(ctx.buffer)
      invariant ctx.msg == Flatten(pieces[..i])
    {
      NextPiece(pieces, i);
      ctx.Update(pieces[i]);
      i := i + 1;
    }
    var r := ctx.Final();
    result := Digest(r);
    Md5Starts();
  }

  lemma PiecesEnd(pieces: seq<seq<byte>>)
    ensures Flatten(pieces[..0]) == [] && pieces[..|pieces|] == pieces
  {}

  lemma Md5Starts()
    ensures MD5.init == INIT
  {}
}
