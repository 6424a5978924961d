/** The client's `post`: from the typed arguments to the bytes on the connection. */
module ClientPost {
  import opened CText
  import opened ByteStream
  import opened Wire
  import opened Tokenizer

  /** The arguments as typed: a quoted text, and a file name after one blank if there is one. */
  function Typed(text: string, fname: Option<string>): string {
    ['"'] + text + ['"'] + (if fname.None? then [] else [' '] + fname.value)
  }

  /** What the user means, given the files that can be opened. */
  function Meant(uid: string, text: string, fname: Option<string>, files: map<string, string>): Option<Post> {
    match fname
    case None => Some(Post(uid, text, None))
    case Some(name) =>
      if name in files then Some(Post(uid, text, Some(Attachment(name, files[name])))) else None
  }

  /** After `get_quote`, the file name is still there, as a string of its own. */
  lemma TypedName(before: string, after: string, text: string, fname: Option<string>)
    requires StringAt(before, 0, Typed(text, fname)) && |text| + 2 < |before|
    requires before[|text| + 2] != '\0' && after == before[|text| + 2 := '\0']
    ensures fname.Some? && StringAt(after, |text| + 3, fname.value)
  {
    var typed := Typed(text, fname);
    assert before[|text| + 2..|typed|] == typed[|text| + 2..];
    if fname.Some? {
      assert after[|text| + 3..|typed|] == before[|text| + 3..|typed|] == typed[|text| + 3..] == fname.value;
    }
  }

  lemma RequestText(uid: string, gid: string, text: string, file: Option<Attachment>)
    ensures "PST " + PstBody(gid, Post(uid, text, file))
         == "PST " + uid + " " + gid + " " + Dec(1, |text|) + " " + text + PstTail(file)
  {
    var size, tail := Dec(1, |text|), PstTail(file);
    Flatten("PST ", uid, " ", gid, " ", size + (" " + (text + tail)));
    Flatten("PST " + uid + " " + gid, " ", size, " ", text, tail);
    Assoc("PST " + uid + " " + gid, " ", size + (" " + (text + tail)));
  }

  lemma TailText(before: string, f: Attachment)
    ensures before + PstTail(Some(f)) == before + " " + f.name + " " + Dec(1, |f.data|) + " " + f.data + "\n"
  {
    var size := Dec(1, |f.data|);
    Flatten(before, " ", f.name, " ", size, " " + (f.data + "\n"));
    Assoc(before + " " + f.name + " " + size, " ", f.data + "\n");
    Assoc(before + " " + f.name + " " + size + " ", f.data, "\n");
  }

  /** What is left after the quote: one word, up to the end of the string. */
  method FileName(args: array<char>, p: nat, ghost name: string) returns (fname: string)
    requires 0 < p && name != [] && NoDelim(name) && StringAt(args[..], p, name)
    modifies args
    ensures fname == name
  {
    assert args[p + |name|] == '\0' && args[..][p] == name[0];
    WordEndIs(args[..], p, name);
    assert args[p + |name| - 1] == name[|name| - 1];
    ghost var s := args[..];
    var ret, next := GetWord(args, Some(p));
    assert args[..] == s;
    fname := ReadString(args, p, name);
  }

  /** The quote, without its marks. */
  method TakeQuote(args: array<char>, ghost text0: string) returns (text: Option<string>, next: Option<nat>)
    requires |text0| + 2 < args.Length && NulFree(text0) && '"' !in text0
    requires args[0..|text0| + 2] == ['"'] + text0 + ['"']
    modifies args
    ensures text == Some(text0) && args[..] == old(args[..])[|text0| + 2 := '\0']
    ensures next == if old(args[|text0| + 2]) == '\0' then None else Some(|text0| + 3)
  {
    ClosedQuote(args[..], 0, text0);
    var quote;
    quote, next := GetQuote(args, Some(0));
    var msg := ReadString(args, quote.value, ['"'] + text0 + ['"']);
    if msg[|msg| - 1] != '"' || msg[0] != '"' {
      return None, next;
    }
    assert msg[1..|msg| - 1] == text0;
    text := Some(msg[1..|msg| - 1]);
  }

  /** `post` sends the request for what was typed, or nothing if the file cannot be opened. */
  method SendPost(args: array<char>, ghost text0: string, ghost fname0: Option<string>,
                  uid: string, gid: string, files: map<string, string>, fd: Socket) returns (sent: bool)
    requires NulFree(text0) && '"' !in text0
    requires fname0.Some? ==> fname0.value != [] && NoDelim(fname0.value)
    requires StringAt(args[..], 0, Typed(text0, fname0))
    modifies args, fd`sent
    ensures sent <==> Meant(uid, text0, fname0, files).Some?
    ensures fd.sent == old(fd.sent) +
              if sent then "PST " + PstBody(gid, Meant(uid, text0, fname0, files).value) else []
  {
    ghost var typed := Typed(text0, fname0);
    assert args[..][..|typed|] == typed;
    assert args[0..|text0| + 2] == typed[..|text0| + 2] == ['"'] + text0 + ['"'];
    var quoted, next := TakeQuote(args, text0);
    if quoted.None? {
      return false;
    }
    var text := quoted.value;
    var fname: Option<string> := None;
    if next.Some? {
      TypedName(old(args[..]), args[..], text0, fname0);
      var name := FileName(args, next.value, fname0.value);
      fname := Some(name);
    }
    var buffer;
    match fname {
      case None =>
        buffer := "PST " + uid + " " + gid + " " + Dec(1, |text|) + " " + text + "\n";
        RequestText(uid, gid, text, None);
      case Some(name) =>
        if name !in files {
          return false;
        }
        var data := files[name];
        buffer := "PST " + uid + " " + gid + " " + Dec(1, |text|) + " " + text + " " + name + " "
                  + Dec(1, |data|) + " " + data + "\n";
        RequestText(uid, gid, text, Some(Attachment(name, data)));
        TailText("PST " + uid + " " + gid + " " + Dec(1, |text|) + " " + text, Attachment(name, data));
    }
    assert buffer[..|buffer|] == buffer;
    WriteAll(fd, buffer, |buffer|);
    sent := true;
  }

  // ---- the reply ----

  /** The reply of `post`: a word, which is a message id or NOK. */
  function PostReply(word: string): string {
    "RPT " + (word + "\n")
  }

  /** What `k` bytes of the reply look like to the client; None is a null pointer. */
  function Told(word: string, k: nat): Option<string> {
    if k <= 3 then None else if k <= 4 + |word| then Some(word[..k - 4]) else Some(word)
  }

  /** The client is told the word exactly when its one `read` returns all of it. */
  lemma ToldIff(word: string, k: nat)
    ensures Told(word, k) == Some(word) <==> k >= 4 + |word|
  {
    if 3 < k <= 4 + |word| {
      assert |word[..k - 4]| == k - 4 && word[..|word|] == word;
    }
  }

  /** The buffer holds the first `k` bytes of the reply, and then a NUL. */
  predicate Holding(s: string, word: string, k: nat) {
    k < |s| && k <= |PostReply(word)| && s[..k] == PostReply(word)[..k] && s[k] == '\0'
  }

  lemma ReplyByte(s: string, word: string, k: nat, i: nat)
    requires Holding(s, word, k) && i < k
    ensures s[i] == if i < 3 then "RPT"[i] else if i == 3 then ' '
                    else if i < 4 + |word| then word[i - 4] else '\n'
  {
    assert s[i] == s[..k][i];
  }

  lemma ReplyPart(s: string, word: string, k: nat, p: nat, w: string)
    requires Holding(s, word, k) && p + |w| <= k
    requires forall i :: 0 <= i < |w| ==> w[i] == PostReply(word)[p + i]
    ensures s[p..p + |w|] == w
  {
    forall i | 0 <= i < |w| ensures s[p + i] == w[i] {
      assert s[p + i] == s[..k][p + i];
    }
  }

  /** Of at most three bytes, the first word takes all. */
  lemma CutShort(s: string, word: string, k: nat)
    requires Holding(s, word, k) && 1 <= k <= 3
    ensures Terminated(s, 0) && WordEnd(s, 0) == k && s[0] == 'R'
  {
    ReplyByte(s, word, k, 0);
    ReplyPart(s, word, k, 0, "RPT"[..k]);
    WordEndIs(s, 0, "RPT"[..k]);
  }

  /** Of more, it takes the tag. */
  lemma CutTag(s: string, word: string, k: nat)
    requires Holding(s, word, k) && 4 <= k
    ensures Terminated(s, 0) && WordEnd(s, 0) == 3 && s[0] == 'R' && s[2] == 'T' && s[3] == ' '
  {
    ReplyByte(s, word, k, 0);
    ReplyByte(s, word, k, 2);
    ReplyByte(s, word, k, 3);
    ReplyPart(s, word, k, 0, "RPT");
    WordEndIs(s, 0, "RPT");
  }

  /** The second word is what has come of the reply's. */
  lemma CutStatus(s: string, word: string, k: nat)
    requires Holding(s, word, k) && 4 <= k && word != "" && NoDelim(word)
    ensures var s' := s[3 := '\0']; var w := Told(word, k).value; var e := 4 + |w|;
      && Terminated(s', 4) && WordEnd(s', 4) == e && s'[4] != ' ' && s'[e - 1] != '\n'
      && StringAt(s'[e := '\0'], 4, w)
  {
    var s', w := s[3 := '\0'], Told(word, k).value;
    var e := 4 + |w|;
    ReplyPart(s, word, k, 4, w);
    assert s'[4..e] == w;
    assert IsDelim(s'[e]) by {
      if e < k {
        ReplyByte(s, word, k, e);
      }
    }
    WordEndIs(s', 4, w);
    if w != "" {
      assert s'[4] == w[0] && s'[e - 1] == w[|w| - 1];
    }
    assert s'[e := '\0'][4..e] == w;
  }

  /** The client takes the reply with a single `read`, and cuts two words from what it gets. */
  method ReadPostReply(fd: Socket, ghost word: string) returns (status: Option<string>, k: nat)
    requires word != "" && NoDelim(word) && |PostReply(word)| < BUFFER_SIZE && fd.rest == PostReply(word)
    modifies fd`rest
    ensures 1 <= k <= |PostReply(word)| && status == Told(word, k)
  {
    var response := new char[BUFFER_SIZE];
    k := fd.Read(response, 0, BUFFER_SIZE);
    response[k] := '\0';
    assert response[..][..k] == response[0..k] == PostReply(word)[..k];
    if k <= 3 {
      CutShort(response[..], word, k);
    } else {
      CutTag(response[..], word, k);
      CutStatus(response[..], word, k);
    }
    var first, str, second;
    first, str := GetWord(response, Some(0));
    second, str := GetWord(response, str);
    if second.None? {
      return None, k;
    }
    var text := ReadString(response, second.value, Told(word, k).value);
    status := Some(text);
  }
}
