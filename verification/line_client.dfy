/** The CR-LF line client shared by the three generations of the bridge
    (`fgfswrite`, `fgfsread`, `fgfsflush`). Socket I/O is replaced by values:
    a write is the framed line it would send, a read is the chunk one
    `read()` call returned. */
module LineClient {
  import opened Optional

  const CR: char := '\r'
  const LF: char := '\n'
  const NUL: char := '\0'

  /** Buffer size of fg-haptic.c and test-haptic.c. */
  const MAXMSG: nat := 512
  /** Buffer size of haptic.c. */
  const MAXMSG_POLLING: nat := 256

  predicate IsTerminator(c: char) {
    c == CR || c == LF
  }

  /** The C string held in a buffer: everything before the first NUL. */
  function CStr(s: string): (r: string)
    ensures r <= s
    ensures NUL !in r
    ensures |r| < |s| ==> s[|r|] == NUL
  {
    if s == [] || s[0] == NUL then [] else [s[0]] + CStr(s[1..])
  }

  function Min(a: int, b: int): int {
    if a <= b then a else b
  }

  /** `fgfswrite`: `vsnprintf` into `MAXMSG - 2` bytes keeps at most
      `MAXMSG - 3` characters of the formatted text, then CR LF is appended. */
  function Frame(text: string, maxMsg: nat): (r: string)
    requires maxMsg >= 3
    ensures 2 <= |r| <= maxMsg - 1
    ensures r[|r| - 2] == CR && r[|r| - 1] == LF
    ensures r[..|r| - 2] <= text
    ensures NUL !in r[..|r| - 2]
    ensures |r| - 2 == Min(|CStr(text)|, maxMsg - 3)
  {
    var body := CStr(text);
    var kept := if |body| <= maxMsg - 3 then body else body[..maxMsg - 3];
    assert kept <= body;
    kept + [CR, LF]
  }

  /** Strips every trailing CR and LF, as the backwards pointer loop of
      `fgfsread` does. */
  function TrimTerminators(s: string): (r: string)
    ensures r <= s
    ensures r == [] || !IsTerminator(r[|r| - 1])
    ensures forall k :: |r| <= k < |s| ==> IsTerminator(s[k])
  {
    if s != [] && IsTerminator(s[|s| - 1]) then TrimTerminators(s[..|s| - 1]) else s
  }

  /** The outcome of one `select` + `read` on a socket: a timeout, or the
      chunk `read()` returned (`Chunk([])` is the zero-length read of a
      closed peer). */
  datatype ReadEvent = Timeout | Chunk(data: string)

  /** `fgfsread`: no data on timeout or a zero-length read; otherwise the
      chunk with trailing CR/LF removed, cut at the first NUL, and no data
      again when nothing is left. */
  function Receive(e: ReadEvent): (r: Option<string>)
    ensures e.Timeout? ==> r.None?
    ensures e == Chunk([]) ==> r.None?
    ensures r.Some? ==> r.value != [] && r.value <= e.data && NUL !in r.value
    ensures r.Some? && NUL !in e.data ==> !IsTerminator(r.value[|r.value| - 1])
    ensures e.Chunk? && NUL !in e.data ==>
              (r.None? <==> forall k :: 0 <= k < |e.data| ==> IsTerminator(e.data[k]))
    ensures e.Chunk? && NUL !in e.data && r.Some? ==>
              forall k :: |r.value| <= k < |e.data| ==> IsTerminator(e.data[k])
  {
    match e
    case Timeout => None
    case Chunk(data) =>
      if data == [] then None
      else
        var trimmed := TrimTerminators(data);
        CStrWithoutNul(trimmed);
        var line := CStr(trimmed);
        if line == [] then None else Some(line)
  }

  /** A buffer without a NUL holds exactly its own characters. */
  lemma {:induction false} CStrWithoutNul(s: string)
    ensures NUL !in s ==> CStr(s) == s
  {
    if s != [] {
      CStrWithoutNul(s[1..]);
    }
  }

  /** `fgfsflush`: the number of reads consumed — every read up to and
      including the first that yields no data (all of them when none does;
      a script that runs out stands for a socket that has gone quiet). */
  function Drain(events: seq<ReadEvent>): (n: nat)
    ensures n <= |events|
    ensures n == 0 <==> events == []
    ensures forall j :: 0 <= j < n - 1 ==> Receive(events[j]).Some?
    ensures n < |events| ==> Receive(events[n - 1]).None?
  {
    if events == [] then 0
    else if Receive(events[0]).None? then 1
    else 1 + Drain(events[1..])
  }

  /** A framed non-empty line with no NUL and no trailing terminator, read
      back in one chunk, is received unchanged. */
  lemma {:induction false} FramedLineRoundTrip(text: string, maxMsg: nat)
    requires maxMsg >= 3
    requires text != [] && |text| <= maxMsg - 3
    requires NUL !in text
    requires !IsTerminator(text[|text| - 1])
    ensures Receive(Chunk(Frame(text, maxMsg))) == Some(text)
  {
    CStrWithoutNul(text);
    var framed := Frame(text, maxMsg);
    assert framed == text + [CR, LF];
    assert framed[..|framed| - 1] == text + [CR];
    assert (text + [CR])[..|text|] == text;
    assert TrimTerminators(framed) == text;
    assert NUL !in framed;
    CStrWithoutNul(TrimTerminators(framed));
  }

  /** A non-empty line with no NUL and no trailing terminator, received in
      one chunk followed by any run of terminators, reads back unchanged. */
  lemma {:induction false} TerminatedLineRoundTrip(text: string, term: string)
    requires text != [] && NUL !in text
    requires !IsTerminator(text[|text| - 1])
    requires forall k :: 0 <= k < |term| ==> IsTerminator(term[k])
    ensures Receive(Chunk(text + term)) == Some(text)
  {
    TrimAppended(text, term);
    assert NUL !in TrimTerminators(text + term);
    CStrWithoutNul(TrimTerminators(text + term));
  }

  lemma {:induction false} TrimAppended(text: string, term: string)
    requires text == [] || !IsTerminator(text[|text| - 1])
    requires forall k :: 0 <= k < |term| ==> IsTerminator(term[k])
    ensures TrimTerminators(text + term) == text
    decreases |term|
  {
    if term == [] {
      assert text + term == text;
    } else {
      var shorter := term[..|term| - 1];
      assert (text + term)[..|text + term| - 1] == text + shorter;
      TrimAppended(text, shorter);
    }
  }

  /** A blank line (only CR LF) reads as "no data", so a flush stops at it. */
  lemma BlankLineEndsDrain(rest: seq<ReadEvent>)
    ensures Receive(Chunk([CR, LF])) == None
    ensures Drain([Chunk([CR, LF])] + rest) == 1
  {
    assert Receive(Chunk([CR, LF])).None?;
  }
}
