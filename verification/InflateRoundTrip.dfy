/** The decoder reads back whatever is written in the DEFLATE format. */
module InflateRoundTrip {
  import opened Deflate
  import opened DeflateEncoding
  import opened InflateLookahead
  import opened Inflate

  /** inflate() on blocks that were written in front of at least 16 further bits: it succeeds,
      gives the bytes that the blocks stand for, and hands back the bytes behind them. */
  method InflateWritten(d: Inflater, ghost blocks: seq<BlockData>, ghost p: Tail) returns (ret: nat)
    requires d.Valid() && d.bb == 0 && d.bk == 0 && d.wp == 0 && d.inptr == 0 && d.flushed == []
    requires BlocksOk(blocks, p) && Tail(d.Rest(), d.Left()) == PutBlocks(blocks, p) && p.avail >= LOOKAHEAD
    modifies d, d.slide
    ensures ret == 0 && |d.before| >= MAX_DISTANCE && d.before + d.flushed == ExtendBlocks(blocks, d.before)
    ensures d.inptr <= |d.input| && |d.input| - d.inptr == p.avail / 8
  {
    hide Blocks, BlocksStarve, BlocksOk, PutBlocks, ExtendBlocks;
    BlocksRead(blocks, p, d.before);
    AmpleFeeds(d.Rest(), d.Left(), d.before);
    ret := d.Run();
  }
}
