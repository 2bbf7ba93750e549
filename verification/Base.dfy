/** Fixed-width integers and the identities that the rest of the stack shares. */
module Base {

  datatype Option<+T> = None | Some(value: T)

  const TWO16: int := 0x1_0000
  const TWO32: int := 0x1_0000_0000

  type byte = x: int | 0 <= x < 0x100
  type u16 = x: int | 0 <= x < 0x1_0000
  type u32 = x: int | 0 <= x < 0x1_0000_0000

  /** A sock is named by its position among the socks its stack has allocated. */
  type SockId = nat

  /** The three hash tables of include/tcp_hash.h. */
  datatype Table = EstablishedTable | ListenTable | BindTable

  /** Every list a sock can be linked into: a hash bucket or a listener's queue. */
  datatype ListId =
    | Bucket(table: Table, index: nat)
    | ListenQueue(sock: SockId)
    | AcceptQueue(sock: SockId)

  /** The list_head members of struct tcp_sock that serve as list nodes. */
  datatype Member = HashList | BindHashList | QueueList

  /** Which member links a sock into a given list. */
  function MemberOf(k: ListId): Member {
    match k
    case Bucket(BindTable, _) => BindHashList
    case Bucket(_, _) => HashList
    case ListenQueue(_) => QueueList
    case AcceptQueue(_) => QueueList
  }

  /** s without any occurrence of x. */
  function Without<T(==)>(s: seq<T>, x: T): seq<T> {
    if s == [] then []
    else if s[0] == x then Without(s[1..], x)
    else [s[0]] + Without(s[1..], x)
  }

  ghost predicate Distinct<T>(s: seq<T>) {
    forall i, j :: 0 <= i < j < |s| ==> s[i] != s[j]
  }

  lemma {:induction false} WithoutAbsent<T>(s: seq<T>, x: T)
    requires x !in s
    ensures Without(s, x) == s
  {
    if s != [] {
      WithoutAbsent(s[1..], x);
    }
  }

  lemma {:induction false} WithoutAt<T>(s: seq<T>, i: nat)
    requires i < |s| && Distinct(s)
    ensures Without(s, s[i]) == s[..i] + s[i + 1..]
  {
    if i == 0 {
      assert s[i] !in s[1..];
      WithoutAbsent(s[1..], s[0]);
    } else {
      WithoutAt(s[1..], i - 1);
      assert s[..i] + s[i + 1..] == [s[0]] + (s[1..][..i - 1] + s[1..][i..]);
    }
  }
}
