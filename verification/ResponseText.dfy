/** The responses by their bytes: every head spelled out, every kind of target, and
    what each is owed.
 */
module ResponseText {
  import opened Bytes
  import opened Message
  import opened ResponseMachine
  import opened Connection
  import opened KeepAlive

  // ---------------------------------------------------------------- heads

  const OK_TEXT := "HTTP/1.1" + " " + "200" + " " + "OK" + "\r\n"

  const HTML_TEXT := "Content-Type" + ": " + "text/html;charset=UTF-8" + "\r\n"

  const KEEP_TEXT := "Connection" + ": " + "keep-alive" + "\r\n"

  function LengthText(n: nat): string {
    "Content-Length" + ": " + ToString(n) + "\r\n"
  }

  /** The head of a list of files, `n` bytes of HTML. */
  function ListText(n: nat): string {
    OK_TEXT + (LengthText(n) + HTML_TEXT + KEEP_TEXT) + "\r\n"
  }

  /** The head of a file of `n` bytes: its last index stands where the redirect
      location does, and for an empty file it has wrapped around. */
  function DownloadText(n: nat): string {
    OK_TEXT
    + (LengthText(n)
       + ("Content-Type" + ": " + "application/octet-stream" + "\r\n")
       + ("Location" + ": " + ToString(if n == 0 then 18446744073709551615 else n - 1) + "\r\n")
       + KEEP_TEXT)
    + "\r\n"
  }

  const REDIRECT_TEXT :=
    "HTTP/1.1" + " " + "302" + " " + "Moved Temporarily" + "\r\n"
    + (LengthText(0) + HTML_TEXT + ("Location" + ": " + "/" + "\r\n") + KEEP_TEXT)
    + "\r\n"

  const STORED_TEXT := ListText(0)

  lemma Skipped(a: string, b: string, c: string)
    ensures a + "" + "" + c == a + c
    ensures a + b + "" + c == a + b + c
  {
  }

  /** The server's heads are these texts. */
  lemma HeadTexts(n: nat)
    ensures ListHead(n) == ListText(n) && DownloadHead(n) == DownloadText(n)
    ensures REDIRECT_HEAD == REDIRECT_TEXT && PUT_HEAD == STORED_TEXT
  {
    hide ToString;
    Zero();
    ListIs(n);
    DownloadIs(n);
    RedirectIs();
    ListIs(0);
    PutIs();
  }

  lemma Zero()
    ensures ToString(0) == "0"
  {
  }

  lemma ListIs(n: nat)
    ensures ListHead(n) == ListText(n)
  {
    hide ToString;
    assert ToString(n) != "";
    Skipped(LengthText(n) + HTML_TEXT, "", KEEP_TEXT);
  }

  lemma DownloadIs(n: nat)
    ensures DownloadHead(n) == DownloadText(n)
  {
    hide ToString;
    var last := ToString(LastIndex(n));
    assert ToString(n) != "" && last != "";
    Skipped(LengthText(n) + TypeLine("file"), HeaderLine("Location", last), KEEP_TEXT);
  }

  lemma RedirectIs()
    requires ToString(0) == "0"
    ensures REDIRECT_HEAD == REDIRECT_TEXT
  {
    hide ToString;
    Skipped(LengthText(0) + HTML_TEXT, HeaderLine("Location", "/"), KEEP_TEXT);
  }

  lemma PutIs()
    requires ToString(0) == "0"
    ensures PUT_HEAD == ListHead(0)
  {
    hide ToString;
  }

  // ---------------------------------------------------------------- targets

  /** A target with an operation and a name: its first byte is skipped unseen, the
      operation ends at the next slash, and the name is the rest, which may hold
      slashes. */
  lemma TargetOfTwo(x: char, op: string, name: string)
    ensures SplitTarget([x] + op + "/" + name) == OpNamed(op, name) <==> '/' !in op && name != ""
  {
    var s := [x] + op + "/" + name;
    var i := SlashIndex(s, 1);
    assert s[|op| + 1] == '/';
    assert s[1..|op| + 1] == op && s[|op| + 2..] == name;
    assert forall j | 1 <= j < i :: s[1..i][j - 1] == s[j];
    assert i <= |op| + 1;
    if i < |op| + 1 {
      assert op[i - 1] == s[i] == '/';
      assert |s[1..i]| < |op|;
    }
  }

  /** A target without a second slash, or with nothing behind it, names nothing to do. */
  lemma TargetOfOne(x: char, word: string)
    requires '/' !in word
    ensures [x] + word != "/" ==> SplitTarget([x] + word) == OpRedirect
    ensures SplitTarget([x] + word + "/") == OpRedirect
  {
    var s, t := [x] + word, [x] + word + "/";
    forall k | 1 <= k < |s| ensures s[k] != '/' && t[k] != '/' {
      assert s[k] == word[k - 1];
    }
    var i, j := SlashIndex(s, 1), SlashIndex(t, 1);
    assert t[|s|] == '/';
  }

  // ---------------------------------------------------------------- what each target is owed

  lemma ReplyByOperation(t: string, op: string, name: string, files: Files, page: string, pending: string)
    requires SplitTarget(t) == OpNamed(op, name)
    ensures Reply(t, files, page, pending) ==
      if op == "downl" && name in files then (DownloadHead(|files[name]|) + files[name], files)
      else if op == "del" then (ListHead(|page|) + page, files - {name})
      else if op == "put" then (PUT_HEAD, files[name := pending])
      else (REDIRECT_HEAD, files)
  {
    hide DownloadHead, ListHead;
  }

  lemma OperationsDiffer()
    ensures "downl" != "del" && "downl" != "put" && "del" != "put"
    ensures '/' !in "downl" && '/' !in "del" && '/' !in "put"
  {
    assert |"downl"| == 5 && |"del"| == 3 && "del"[0] != "put"[0];
  }

  lemma Removed(files: Files, name: string)
    ensures files - {name} == map n | n in files && n != name :: files[n]
  {
  }

  /** The replies by their bytes, with the directory behind each: the list; a file;
      a file that is not there; a deletion, whether or not the file is there; a stored
      PUT. The first byte of the target does not matter. */
  lemma RepliesText(x: char, name: string, files: Files, page: string, pending: string)
    requires name != ""
    ensures Reply("/", files, page, pending) == (ListText(|page|) + page, files)
    ensures Reply([x] + "downl" + "/" + name, files, page, pending)
      == (if name in files then DownloadText(|files[name]|) + files[name] else REDIRECT_TEXT, files)
    ensures Reply([x] + "del" + "/" + name, files, page, pending)
      == (ListText(|page|) + page, map n | n in files && n != name :: files[n])
    ensures Reply([x] + "put" + "/" + name, files, page, pending) == (STORED_TEXT, files[name := pending])
  {
    hide SplitTarget, ListText, DownloadText, ListHead, DownloadHead;
    HeadTexts(|page|);
    HeadTexts(if name in files then |files[name]| else 0);
    OperationsDiffer();
    TargetOfTwo(x, "downl", name);
    TargetOfTwo(x, "del", name);
    TargetOfTwo(x, "put", name);
    ReplyByOperation([x] + "downl" + "/" + name, "downl", name, files, page, pending);
    ReplyByOperation([x] + "del" + "/" + name, "del", name, files, page, pending);
    ReplyByOperation([x] + "put" + "/" + name, "put", name, files, page, pending);
    Removed(files, name);
    RedirectReply(files, page, pending);
  }

  /** Every other target is redirected: another operation, or no name. */
  lemma OthersRedirect(x: char, op: string, name: string, files: Files, page: string, pending: string)
    requires '/' !in op
    ensures name != "" && op != "downl" && op != "del" && op != "put" ==>
      Reply([x] + op + "/" + name, files, page, pending) == (REDIRECT_TEXT, files)
    ensures Reply([x] + op + "/", files, page, pending) == (REDIRECT_TEXT, files)
    ensures [x] + op != "/" ==> Reply([x] + op, files, page, pending) == (REDIRECT_TEXT, files)
  {
    hide SplitTarget, ListHead, DownloadHead;
    HeadTexts(0);
    TargetOfOne(x, op);
    TargetOfTwo(x, op, name);
    if name != "" {
      ReplyByOperation([x] + op + "/" + name, op, name, files, page, pending);
    }
  }
}
