/** One end of a TCP connection, and the loops both programs run on it. */
module ByteStream {
  import opened CText

  /** What `get_word_fd` stores: the bytes up to the first delimiter, or to the end of the stream. */
  function WordOf(s: string): (w: string)
    ensures |w| <= |s|
  {
    if s == [] || IsDelim(s[0]) then [] else [s[0]] + WordOf(s[1..])
  }

  /** What it leaves unread: the bytes after that delimiter. */
  function AfterWord(s: string): (r: string)
    ensures |r| <= |s| && (s != [] ==> |r| < |s|)
  {
    if s == [] then [] else if IsDelim(s[0]) then s[1..] else AfterWord(s[1..])
  }

  lemma {:induction false} WordThen(w: string, d: char, t: string)
    requires NoDelim(w) && IsDelim(d)
    ensures WordOf(w + ([d] + t)) == w && AfterWord(w + ([d] + t)) == t
  {
    if w != [] {
      WordThen(w[1..], d, t);
      assert (w + ([d] + t))[1..] == w[1..] + ([d] + t);
    }
  }

  class Socket {
    var rest: string  // sent by the peer and not read yet; then the peer closes
    var sent: string  // written to the peer

    constructor (incoming: string)
      ensures rest == incoming && sent == []
    {
      rest, sent := incoming, [];
    }

    /** `read` may return fewer bytes than asked for, but at least one unless the stream ended. */
    method Read(buf: array<char>, at: nat, n: nat) returns (k: nat)
      requires at + n <= buf.Length
      modifies this`rest, buf
      ensures k <= n && k <= |old(rest)| && (n > 0 && old(rest) != [] ==> k > 0)
      ensures buf[at..at + k] == old(rest)[..k] && rest == old(rest)[k..]
      ensures buf[..at] == old(buf[..at]) && buf[at + k..] == old(buf[at + k..])
    {
      if n == 0 || rest == [] {
        return 0;
      }
      k :| 1 <= k <= n && k <= |rest|;
      forall i | 0 <= i < k {
        buf[at + i] := rest[i];
      }
      rest := rest[k..];
    }

    /** `write` in the loops that check its result: it may accept only some of the bytes. */
    method WriteSome(buf: string) returns (k: nat)
      modifies this`sent
      ensures k <= |buf| && (buf != [] ==> k > 0)
      ensures sent == old(sent) + buf[..k]
    {
      if buf == [] {
        return 0;
      }
      k :| 1 <= k <= |buf|;
      sent := sent + buf[..k];
    }

    /** `write` and `dprintf` where the result is ignored: taken to accept everything. */
    method Write(buf: string)
      modifies this`sent
      ensures sent == old(sent) + buf
    {
      sent := sent + buf;
    }
  }

  /** The write loops of `send_tcp_message_sending_size` and `retrieve`. */
  method WriteAll(fd: Socket, buf: string, size: nat)
    requires size <= |buf|
    modifies fd`sent
    ensures fd.sent == old(fd.sent) + buf[..size]
  {
    var total := 0;
    while total != size
      invariant total <= size && fd.sent == old(fd.sent) + buf[..total]
    {
      var k := fd.WriteSome(buf[total..size]);
      assert buf[..total] + buf[total..size][..k] == buf[..total + k];
      total := total + k;
    }
  }

  /** `get_word_fd`: one byte at a time, with a NUL in place of the delimiter. */
  method GetWordFd(fd: Socket, str: array<char>) returns (size: nat)
    requires |WordOf(fd.rest)| < str.Length
    modifies fd`rest, str
    ensures size < str.Length && str[..size] == WordOf(old(fd.rest)) && str[size] == '\0'
    ensures fd.rest == AfterWord(old(fd.rest))
  {
    size := 0;
    while true
      invariant size + |WordOf(fd.rest)| < str.Length
      invariant WordOf(old(fd.rest)) == str[..size] + WordOf(fd.rest)
      invariant AfterWord(old(fd.rest)) == AfterWord(fd.rest)
      decreases |fd.rest|
    {
      ghost var before := fd.rest;
      ghost var word := str[..size];
      var k := fd.Read(str, size, 1);
      assert str[..size] == word;
      if k == 0 {
        break;
      }
      assert str[size] == str[size..size + 1][0] == before[0];
      if IsDelim(str[size]) {
        break;
      }
      size := size + 1;
      assert str[..size] == word + [before[0]];
    }
    ghost var word := str[..size];
    str[size] := '\0';
    assert str[..size] == word;
  }

  /** `read_fd`, and the two reassembly loops of the client's `retrieve`. */
  method ReadFd(fd: Socket, str: array<char>, size: nat)
    requires size <= |fd.rest| && size <= str.Length
    modifies fd`rest, str
    ensures str[..size] == old(fd.rest)[..size] && fd.rest == old(fd.rest)[size..]
    ensures str[size..] == old(str[size..])
  {
    var total := 0;
    while total < size
      invariant total <= size && fd.rest == old(fd.rest)[total..]
      invariant str[..total] == old(fd.rest)[..total]
      invariant str[size..] == old(str[size..])
    {
      ghost var head, last := str[..total], str[size..];
      var k := fd.Read(str, total, size - total);
      assert str[..total + k] == str[..total] + str[total..total + k];
      assert str[size..] == str[total + k..][size - total - k..];
      total := total + k;
    }
  }

  /** `read_fd` with no buffer: the bytes are dropped. */
  method SkipFd(fd: Socket, size: nat)
    requires size <= |fd.rest|
    modifies fd`rest
    ensures fd.rest == old(fd.rest)[size..]
  {
    var c := new char[1];
    var total := 0;
    while total < size
      invariant total <= size && fd.rest == old(fd.rest)[total..]
    {
      var k := fd.Read(c, 0, 1);
      total := total + k;
    }
  }

  /** A single `read` of one byte, whose result is ignored. */
  method ReadOne(fd: Socket)
    modifies fd`rest
    ensures fd.rest == if old(fd.rest) == "" then "" else old(fd.rest)[1..]
  {
    var c := new char[1];
    var _ := fd.Read(c, 0, 1);
  }

  /** `get_word_fd` into a buffer of the caller's, and the C string it then holds. */
  method ReadWord(fd: Socket, capacity: nat) returns (w: string)
    requires |WordOf(fd.rest)| < capacity
    modifies fd`rest
    ensures w == WordOf(old(fd.rest)) && fd.rest == AfterWord(old(fd.rest))
  {
    var str := new char[capacity];
    var size := GetWordFd(fd, str);
    w := str[..size];
  }

  /** `read_fd` into a buffer of the caller's. */
  method ReadBytes(fd: Socket, size: nat) returns (s: string)
    requires size <= |fd.rest|
    modifies fd`rest
    ensures s == old(fd.rest)[..size] && fd.rest == old(fd.rest)[size..]
  {
    var str := new char[size + 1];
    ReadFd(fd, str, size);
    str[size] := '\0';
    s := str[..size];
  }
}
