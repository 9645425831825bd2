/** A connection that carries a single message, as each direction of a UDP exchange does. */
module Transfer {
  import opened Wrappers
  import opened Octets
  import opened Messages
  import opened Codec
  import opened Stream

  /** The reads of `s` that arrive, given their sizes, before the connection ends. */
  function Pieces(s: seq<byte>, sizes: seq<nat>): seq<seq<byte>> {
    if sizes == [] then [] else
    var n := if sizes[0] <= |s| then sizes[0] else |s|;
    [s[..n]] + Pieces(s[n..], sizes[1..])
  }

  function Total(sizes: seq<nat>): nat {
    if sizes == [] then 0 else sizes[0] + Total(sizes[1..])
  }

  lemma {:induction false} PiecesArePrefix(s: seq<byte>, sizes: seq<nat>)
    ensures Flatten(Pieces(s, sizes)) == if Total(sizes) <= |s| then s[..Total(sizes)] else s
    decreases |sizes|
  {
    if sizes != [] {
      var n := if sizes[0] <= |s| then sizes[0] else |s|;
      PiecesArePrefix(s[n..], sizes[1..]);
      var pieces := Pieces(s, sizes);
      assert pieces[0] == s[..n] && pieces[1..] == Pieces(s[n..], sizes[1..]);
      assert s == s[..n] + s[n..];
    }
  }

  function FirstOf(items: seq<Message>): Option<Message> {
    if items == [] then None else Some(items[0])
  }

  /** The message a fresh decoder at the other end takes from the connection, if it gets one. */
  function Arrival(from: Endpoint, to: Endpoint, cfg: Config, dir: Direction, x: Sent, sizes: seq<nat>): Option<Message> {
    if Encodes(from, cfg, x) then FirstOf(ReadChunks(to, dir, Head, [], Pieces(Encoded(from, cfg, x), sizes)).items)
    else None
  }

  /** Encodes `x`, carries what arrives of it in any pieces, and decodes it at the other end. */
  method Carry(sender: ConnectionCodec, receiver: ConnectionCodec, x: Sent, sizes: seq<nat>) returns (r: Option<Message>)
    requires LibraryLaws(sender.end.lib) && receiver.status == Head
    modifies receiver`status
    ensures r == Arrival(sender.end, receiver.end, sender.config, receiver.decodes, x, sizes)
  {
    hide ReadChunks, ParseStream, Encoded, Encodes, LibraryLaws;
    var dst := new BytesMut([]);
    var ok := WriteOne(sender, x, dst);
    if !ok {
      return None;
    }
    assert dst.data == Encoded(sender.end, sender.config, x);
    var src := new BytesMut([]);
    ChunkIndependence(receiver.end, receiver.decodes, Pieces(dst.data, sizes));
    var items, _ := ReadAll(receiver, src, Pieces(dst.data, sizes));
    r := FirstOf(items);
  }

  /**
    A message arrives if and only if it can be encoded, its whole frame is read, and the frame is marked
    the way it is packed; then it arrives as it was sent, with its token wrapped.
   */
  lemma ArrivesExactly(from: Endpoint, to: Endpoint, cfg: Config, dir: Direction, x: Sent, sizes: seq<nat>)
    requires Peers(from, to, x.message.user) && GzipMagic(to.lib)
    requires Representable(from, cfg, x.message, x.random) && |x.message.id| == ID_LENGTH
    requires DirectionOf(x.message.payload) == dir
    ensures Arrival(from, to, cfg, dir, x, sizes)
         == if Encodes(from, cfg, x) && cfg.MarksFaithfully() && Total(sizes) >= |Encoded(from, cfg, x)|
            then Some(Arriving(from, x)) else None
  {
    hide ReadChunks, ParseStream, Encoded, Encodes, Representable, Peers, GzipMagic, Arriving;
    if Encodes(from, cfg, x) {
      var frame := Encoded(from, cfg, x);
      ChunkIndependence(to, dir, Pieces(frame, sizes));
      PiecesArePrefix(frame, sizes);
      if Total(sizes) < |frame| {
        PartialFrame(from, to, cfg, dir, x, Total(sizes));
      } else {
        assert Flatten(Pieces(frame, sizes)) == frame == frame + [];
        if cfg.MarksFaithfully() {
          ParseEncoded(from, to, cfg, dir, x, []);
          EmptyStream(to, dir);
        } else {
          FirstFrameFails(from, to, cfg, dir, x, []);
        }
      }
    }
  }

  lemma EmptyStream(e: Endpoint, dir: Direction)
    ensures ParseStream(e, dir, []).items == []
  {
  }
}
