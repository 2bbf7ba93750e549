/** tcp_update_window and tcp_update_window_safe of tcp_in.c, which nothing calls
    yet. */
module WindowUpdate {
  import opened Base
  import opened SeqSpace

  /** The send side of a sock, as far as these functions use it */
  class Sender {
    var sndUna: u32
    var sndNxt: u32
    var sndWnd: u32

    constructor (una: u32, nxt: u32, wnd: u32)
      ensures sndUna == una && sndNxt == nxt && sndWnd == wnd
    {
      sndUna, sndNxt, sndWnd := una, nxt, wnd;
    }

    /** tcp_update_window; wakes says whether wait_send is woken. The old window is
        kept in 16 bits, so a window that is a multiple of 65536 counts as zero. */
    method Update(rwnd: u32) returns (wakes: bool)
      modifies this`sndWnd
      ensures sndWnd == rwnd && (wakes <==> old(sndWnd) % TWO16 == 0)
    {
      var oldWnd: u16 := sndWnd % TWO16;
      sndWnd := rwnd;
      wakes := oldWnd == 0;
    }

    /** tcp_update_window_safe: what is acknowledged must lie between snd_una and
        snd_nxt. */
    method UpdateSafely(ack: u32, rwnd: u32) returns (wakes: bool)
      modifies this`sndWnd
      ensures sndWnd == if Between(sndUna, ack, sndNxt) then rwnd else old(sndWnd)
      ensures wakes <==> Between(sndUna, ack, sndNxt) && old(sndWnd) % TWO16 == 0
    {
      wakes := false;
      if LessOrEqual(sndUna, ack) && LessOrEqual(ack, sndNxt) {
        wakes := Update(rwnd);
      }
    }
  }

  predicate Between(una: u32, ack: u32, nxt: u32) {
    LessOrEqual(una, ack) && LessOrEqual(ack, nxt)
  }

  /** With n numbers outstanding, at most 2^31, the test accepts exactly the
      acknowledgements of 0 to n of them, whatever has wrapped around; the one
      exception is an acknowledgement 2^31 ahead when nothing is outstanding. */
  lemma BetweenExact(una: u32, n: nat, k: nat)
    requires n <= HALF && k < TWO32
    ensures Between(una, (una + k) % TWO32, (una + n) % TWO32) <==> k <= n || (n == 0 && k == HALF)
  {
    SerialOrder(una, k);
    Wrapped(una, k);
    Wrapped(una, n);
    var ack, nxt := (una + k) % TWO32, (una + n) % TWO32;
    if k <= n {
      SerialOrder(ack, n - k);
      Wrapped(ack, n - k);
    } else {
      SerialOrder(ack, n - k + TWO32);
      Wrapped(ack, n - k + TWO32);
    }
  }
}
