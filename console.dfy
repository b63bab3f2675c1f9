/**
 * The runtime console of the board's soft CPU: a line editor over a static
 * 64-byte buffer fed one UART character per call, an in-place tokenizer,
 * and the command dispatch that runs when a line is complete.
 */
module Console {
  import opened Wrappers

  /** sizeof(s): the line buffer, NUL terminator included. */
  const BufSize: nat := 64

  const Delete: char := '\U{7F}'
  const Backspace: char := '\U{08}'
  const Bell: char := '\U{07}'
  const Nul: char := '\0'

  predicate IsLineEnd(c: char)
  {
    c == '\r' || c == '\n'
  }

  predicate IsErase(c: char)
  {
    c == Delete || c == Backspace
  }

  /** A character the editor stores: anything but erase, bell and line end. */
  predicate IsStored(c: char)
  {
    !IsErase(c) && c != Bell && !IsLineEnd(c)
  }

  predicate NoLineEnd(keys: seq<char>)
  {
    forall k :: 0 <= k < |keys| ==> !IsLineEnd(keys[k])
  }

  // ---- The line editor ------------------------------------------------------------------------

  /**
   * What one key that does not end the line does to the text typed so far:
   * erase drops the last character, if any; bell does nothing; any other
   * character is appended while the buffer can hold it and its terminator,
   * and dropped once it cannot.
   */
  function Edit(line: seq<char>, c: char): (r: seq<char>)
    requires |line| < BufSize && !IsLineEnd(c)
    ensures |r| < BufSize
    ensures r == line || r == line + [c] || (|line| > 0 && r == line[..|line| - 1])
  {
    if IsErase(c) then (if |line| > 0 then line[..|line| - 1] else line)
    else if c == Bell then line
    else if |line| < BufSize - 1 then line + [c]
    else line
  }

  /** The text the keys typed since the last line end leave behind. */
  function TypedLine(keys: seq<char>): (r: seq<char>)
    requires NoLineEnd(keys)
    ensures |r| < BufSize && |r| <= |keys|
  {
    if keys == [] then [] else Edit(TypedLine(keys[..|keys| - 1]), keys[|keys| - 1])
  }

  lemma TypedLineStep(keys: seq<char>, c: char)
    requires NoLineEnd(keys) && !IsLineEnd(c)
    ensures NoLineEnd(keys + [c])
    ensures TypedLine(keys + [c]) == Edit(TypedLine(keys), c)
  {
    assert (keys + [c])[..|keys|] == keys;
  }

  /** The bell leaves the typed line as it was. */
  lemma TypedLineBell(keys: seq<char>)
    requires NoLineEnd(keys)
    ensures NoLineEnd(keys + [Bell])
    ensures TypedLine(keys + [Bell]) == TypedLine(keys)
  {
    TypedLineStep(keys, Bell);
  }

  /** An erase key drops the last typed character, and on an empty line does nothing. */
  lemma TypedLineErase(keys: seq<char>, e: char)
    requires NoLineEnd(keys) && IsErase(e)
    ensures NoLineEnd(keys + [e])
    ensures var line := TypedLine(keys);
            TypedLine(keys + [e]) == if line == [] then [] else line[..|line| - 1]
  {
    TypedLineStep(keys, e);
  }

  /** Any other key is appended while fewer than 63 characters are stored, and dropped otherwise. */
  lemma TypedLineStored(keys: seq<char>, c: char)
    requires NoLineEnd(keys) && IsStored(c)
    ensures NoLineEnd(keys + [c])
    ensures var line := TypedLine(keys);
            TypedLine(keys + [c]) == if |line| < BufSize - 1 then line + [c] else line
  {
    TypedLineStep(keys, c);
  }

  /** Without erase or bell, the line is the keys typed, cut off after 63 characters. */
  lemma {:induction false} TypedLineOfStoredKeys(keys: seq<char>)
    requires forall k :: 0 <= k < |keys| ==> IsStored(keys[k])
    ensures NoLineEnd(keys)
    ensures TypedLine(keys) == if |keys| < BufSize then keys else keys[..BufSize - 1]
  {
    if keys != [] {
      var front := keys[..|keys| - 1];
      TypedLineOfStoredKeys(front);
      assert front + [keys[|keys| - 1]] == keys;
    }
  }

  /** Erase undoes a stored character, unless the buffer was already full and the character was dropped. */
  lemma EraseUndoesKey(line: seq<char>, c: char, e: char)
    requires |line| < BufSize - 1 && IsStored(c) && IsErase(e)
    ensures Edit(Edit(line, c), e) == line
  {
    assert (line + [c])[..|line|] == line;
  }

  /** Once 63 characters are stored, a further character is dropped and erase removes the last stored one. */
  lemma FullLineDropsKey(line: seq<char>, c: char, e: char)
    requires |line| == BufSize - 1 && IsStored(c) && IsErase(e)
    ensures Edit(line, c) == line
    ensures Edit(Edit(line, c), e) == line[..BufSize - 2]
  {
  }

  // ---- C strings ------------------------------------------------------------------------------

  /** The C string at the start of s: everything before its first NUL. */
  function CString(s: seq<char>): (r: seq<char>)
    ensures |r| <= |s| && r == s[..|r|]
    ensures Nul !in r
    ensures |r| < |s| ==> s[|r|] == Nul
    ensures Nul in s ==> |r| < |s|
  {
    if s == [] || s[0] == Nul then [] else [s[0]] + CString(s[1..])
  }

  /** A NUL right after x ends the C string within x, whatever follows. */
  lemma {:induction false} CStringOfTerminated(x: seq<char>, y: seq<char>)
    ensures CString(x + [Nul] + y) == CString(x)
  {
    if x != [] && x[0] != Nul {
      assert (x + [Nul] + y)[1..] == x[1..] + [Nul] + y;
      CStringOfTerminated(x[1..], y);
    }
  }

  /** Skipping m characters of a C string leaves the rest of the same C string. */
  lemma {:induction false} CStringDrop(s: seq<char>, m: nat)
    requires m <= |CString(s)|
    ensures CString(s[m..]) == CString(s)[m..]
  {
    if m > 0 {
      assert s[1..][m - 1..] == s[m..];
      CStringDrop(s[1..], m - 1);
    }
  }

  /** strchr on a C string: the index of the first c, if there is one. */
  function IndexOf(s: seq<char>, c: char): (r: Option<nat>)
    ensures r.None? <==> c !in s
    ensures r.Some? ==> r.value < |s| && s[r.value] == c && c !in s[..r.value]
  {
    if s == [] then None
    else if s[0] == c then Some(0)
    else match IndexOf(s[1..], c)
      case None => None
      case Some(k) =>
        assert s[..k + 1] == [s[0]] + s[1..][..k];
        Some(k + 1)
  }

  // ---- get_token ------------------------------------------------------------------------------

  /**
   * The token get_token returns from the string t and the string it leaves
   * behind: the text before the first space and the text after it, or all
   * of t and nothing when t holds no space.
   */
  function SplitToken(t: seq<char>): (r: (seq<char>, seq<char>))
    ensures ' ' !in r.0
    ensures ' ' in t ==> t == r.0 + [' '] + r.1
    ensures ' ' !in t ==> r == (t, [])
  {
    match IndexOf(t, ' ')
    case None => (t, [])
    case Some(k) =>
      assert t == t[..k] + [' '] + t[k + 1..];
      (t[..k], t[k + 1..])
  }

  /** The first c in x + [c] + y is the one after x, when x holds none. */
  lemma {:induction false} IndexOfFirst(x: seq<char>, c: char, y: seq<char>)
    requires c !in x
    ensures IndexOf(x + [c] + y, c) == Some(|x|)
  {
    if x != [] {
      assert (x + [c] + y)[1..] == x[1..] + [c] + y;
      IndexOfFirst(x[1..], c, y);
    }
  }

  /** Joining a space-free token and a rest with one space and splitting again gives them back. */
  lemma SplitJoinedToken(token: seq<char>, rest: seq<char>)
    requires ' ' !in token
    ensures SplitToken(token + [' '] + rest) == (token, rest)
  {
    var t := token + [' '] + rest;
    IndexOfFirst(token, ' ', rest);
    assert t[..|token|] == token && t[|token| + 1..] == rest;
  }

  /** The buffer after is the buffer before with some spaces overwritten by NUL. */
  ghost predicate NulledSpaces(before: seq<char>, after: seq<char>)
  {
    |before| == |after| &&
    forall k :: 0 <= k < |before| ==> after[k] == before[k] || (before[k] == ' ' && after[k] == Nul)
  }

  /** Without a space, the C string at b[str..] ends at a NUL that starts an empty C string. */
  lemma SplitAtEnd(b: seq<char>, str: nat)
    requires str <= |b| && Nul in b[str..]
    ensures var end := str + |CString(b[str..])|;
            end < |b| && b[end] == Nul && Nul in b[end..] && CString(b[end..]) == []
  {
    var end := str + |CString(b[str..])|;
    assert b[str..][end - str] == b[end];
  }

  /** The NUL written at p ends the token: the C string at str is the text before p. */
  lemma TokenBeforeNul(b: seq<char>, str: nat, k: nat)
    requires str + k < |b| && Nul !in b[str..str + k]
    ensures CString(b[str + k := Nul][str..]) == b[str..str + k]
  {
    var p := str + k;
    assert b[p := Nul][str..] == b[str..p] + [Nul] + b[p + 1..];
    CStringOfTerminated(b[str..p], b[p + 1..]);
  }

  /** The rest after position p of the C string at str is the C string at p + 1. */
  lemma RestAfterSpace(b: seq<char>, str: nat, k: nat)
    requires str <= |b| && k < |CString(b[str..])|
    ensures str + k + 1 <= |b|
    ensures CString(b[str + k := Nul][str + k + 1..]) == CString(b[str..])[k + 1..]
  {
    CStringDrop(b[str..], k + 1);
    assert b[str..][k + 1..] == b[str + k + 1..] == b[str + k := Nul][str + k + 1..];
  }

  /** A NUL after position p survives in b[p + 1..]. */
  lemma NulAfter(b: seq<char>, str: nat, k: nat)
    requires str <= |b| && Nul in b[str..] && k < |CString(b[str..])|
    ensures str + k + 1 < |b| && Nul in b[str + k + 1..]
  {
    var t := CString(b[str..]);
    var end := str + |t|;
    assert b[str..][|t|] == b[end] == Nul;
    assert b[str + k + 1..][end - (str + k + 1)] == Nul;
  }

  /** Split at the first space, k, of t. */
  lemma SplitAtIndex(t: seq<char>, k: nat)
    requires IndexOf(t, ' ') == Some(k)
    ensures k < |t| && t[k] == ' ' && SplitToken(t) == (t[..k], t[k + 1..])
  {
  }

  /** The first k + 1 characters of the C string at b[str..] are those of the buffer. */
  lemma CStringPrefix(b: seq<char>, str: nat, k: nat)
    requires str <= |b| && k < |CString(b[str..])|
    ensures var t := CString(b[str..]);
            str + k < |b| && b[str..str + k] == t[..k] && b[str + k] == t[k] && Nul !in b[str..str + k]
  {
    var t := CString(b[str..]);
    assert b[str..][..k] == t[..k] == b[str..str + k];
    assert b[str + k] == b[str..][k] == t[k];
  }

  /** Writing a NUL over the first space of the C string at b[str..] splits it into token and rest. */
  lemma SplitAtSpace(b: seq<char>, str: nat, k: nat)
    requires str <= |b| && Nul in b[str..]
    requires IndexOf(CString(b[str..]), ' ') == Some(k)
    ensures var t, p := CString(b[str..]), str + k;
            p + 1 < |b| && b[p] == ' ' &&
            CString(b[p := Nul][str..]) == SplitToken(t).0 &&
            CString(b[p := Nul][p + 1..]) == SplitToken(t).1 && Nul in b[p + 1..]
  {
    var t := CString(b[str..]);
    SplitAtIndex(t, k);
    CStringPrefix(b, str, k);
    TokenBeforeNul(b, str, k);
    RestAfterSpace(b, str, k);
    NulAfter(b, str, k);
  }

  /** b[p] is the first space of the C string at b[str..]: no space and no NUL come before it. */
  predicate FirstSpace(b: seq<char>, str: nat, p: nat)
    requires str <= p <= |b|
  {
    ' ' !in b[str..p] && Nul !in b[str..p]
  }

  /**
   * What get_token(&str) does to the buffer b and the pointer str: on the C
   * string at b[str..] it overwrites the first space with NUL and moves str
   * just past it, or, without a space, moves str to the terminating NUL.
   */
  function TokenStep(b: seq<char>, str: nat): (r: (seq<char>, nat))
    requires str <= |b| && Nul in b[str..]
    ensures NulledSpaces(b, r.0) && str <= r.1 < |b|
    ensures ' ' !in CString(b[str..]) ==> r.0 == b && r.1 == str + |CString(b[str..])| && b[r.1] == Nul
    ensures ' ' in CString(b[str..]) ==>
              exists p :: str <= p < |b| && b[p] == ' ' && FirstSpace(b, str, p) && r.0 == b[p := Nul] && r.1 == p + 1
  {
    var t := CString(b[str..]);
    match IndexOf(t, ' ')
    case None => (b, str + |t|)
    case Some(k) =>
      assert b[str + k] == b[str..][k] == t[k];
      assert b[str..str + k] == t[..k];
      assert FirstSpace(b, str, str + k);
      (b[str + k := Nul], str + k + 1)
  }

  /** After get_token the token is the C string at the old str and the rest is the C string at the new one. */
  lemma TokenStepSplits(b: seq<char>, str: nat)
    requires str <= |b| && Nul in b[str..]
    ensures var (b', next) := TokenStep(b, str);
            var t := CString(b[str..]);
            next < |b'| && Nul in b'[next..] &&
            CString(b'[str..]) == SplitToken(t).0 && CString(b'[next..]) == SplitToken(t).1
  {
    var t := CString(b[str..]);
    match IndexOf(t, ' ')
    case None =>
      assert TokenStep(b, str) == (b, str + |t|);
      assert SplitToken(t) == (t, []);
      SplitAtEnd(b, str);
    case Some(k) =>
      assert TokenStep(b, str) == (b[str + k := Nul], str + k + 1);
      SplitAtSpace(b, str, k);
  }

  /**
   * get_token(&str) on the buffer buf: returns the token's start, which is
   * the old str, and the new str.
   */
  method GetToken(buf: array<char>, str: nat) returns (token: nat, next: nat)
    requires str <= buf.Length && Nul in buf[str..]
    modifies buf
    ensures token == str
    ensures (buf[..], next) == TokenStep(old(buf[..]), str)
    ensures var t := CString(old(buf[str..]));
            next < buf.Length && Nul in buf[next..] &&
            CString(buf[token..]) == SplitToken(t).0 && CString(buf[next..]) == SplitToken(t).1
  {
    ghost var before := buf[..];
    assert before[str..] == buf[str..];
    TokenStepSplits(before, str);
    var t := CString(buf[str..]);
    var space := IndexOf(t, ' ');
    token := str;
    if space.None? {
      next := str + |t|;
    } else {
      buf[str + space.value] := Nul;
      next := str + space.value + 1;
    }
    assert buf[..] == TokenStep(before, str).0;
    assert buf[str..] == buf[..][str..] && buf[next..] == buf[..][next..];
  }

  // ---- Command dispatch -----------------------------------------------------------------------

  datatype Command = Help | LastAddr | PrintHdr | LoadSound | Reboot | SdramBist | NoCommand

  /**
   * The strcmp chain of console_service: each command, by its full name or
   * its one-letter alias; sdram_bist only when the SoC has an SDRAM
   * generator (CSR_SDRAM_GENERATOR_BASE); any other token runs nothing.
   */
  function Dispatch(token: seq<char>, hasSdramGenerator: bool): (c: Command)
    ensures c == Help <==> token == "help" || token == "h"
    ensures c == LastAddr <==> token == "lastaddr" || token == "l"
    ensures c == PrintHdr <==> token == "printhdr" || token == "p"
    ensures c == LoadSound <==> token == "loadsound" || token == "o"
    ensures c == Reboot <==> token == "reboot" || token == "r"
    ensures c == SdramBist <==> hasSdramGenerator && token == "sdram_bist"
    ensures c == NoCommand <==> token !in {"help", "h", "lastaddr", "l", "printhdr", "p", "loadsound", "o", "reboot", "r"} &&
                                !(hasSdramGenerator && token == "sdram_bist")
  {
    if token == "help" || token == "h" then Help
    else if token == "lastaddr" || token == "l" then LastAddr
    else if token == "printhdr" || token == "p" then PrintHdr
    else if token == "loadsound" || token == "o" then LoadSound
    else if token == "reboot" || token == "r" then Reboot
    else if hasSdramGenerator && token == "sdram_bist" then SdramBist
    else NoCommand
  }

  const TwoTo32: nat := 0x1_0000_0000

  /** An int stored into an unsigned int: reduced modulo 2^32. */
  function Unsigned32(x: int): (u: nat)
    ensures u < TwoTo32 && (u - x) % TwoTo32 == 0
  {
    x % TwoTo32
  }

  /** burst_length: atoi's result as an unsigned int, with 0 (nothing given) replaced by 128. */
  function BistBurstLength(parsed: int): (n: nat)
    ensures 0 < n < TwoTo32
    ensures Unsigned32(parsed) != 0 ==> n == Unsigned32(parsed)
    ensures Unsigned32(parsed) == 0 ==> n == 128
  {
    var u := Unsigned32(parsed);
    if u == 0 then 128 else u
  }

  /** What console_service goes on to do with a completed line. */
  datatype Action = Run(cmd: Command) | RunBist(burstLength: nat, random: nat)

  /**
   * The action for the line: its first token picks the command; sdram_bist
   * takes its burst length and random flag from the next two tokens, read by
   * atoi, which stands for the C library's conversion.
   */
  function Respond(line: seq<char>, hasSdramGenerator: bool, atoi: seq<char> -> int): (a: Action)
    ensures a.RunBist? <==> Dispatch(SplitToken(line).0, hasSdramGenerator) == SdramBist
    ensures a.Run? ==> a.cmd == Dispatch(SplitToken(line).0, hasSdramGenerator)
    ensures a.RunBist? ==> 0 < a.burstLength < TwoTo32 && a.random < TwoTo32
  {
    var (token, rest) := SplitToken(line);
    var cmd := Dispatch(token, hasSdramGenerator);
    if cmd == SdramBist then
      var (arg1, rest1) := SplitToken(rest);
      var (arg2, _) := SplitToken(rest1);
      RunBist(BistBurstLength(atoi(arg1)), Unsigned32(atoi(arg2)))
    else Run(cmd)
  }

  /**
   * sdram_bist with two or more arguments: the burst length is the next token
   * and the random flag the token after it; anything further is ignored.
   */
  lemma BistArguments(burst: seq<char>, rest: seq<char>, atoi: seq<char> -> int)
    requires ' ' !in burst
    ensures Respond("sdram_bist" + [' '] + burst + [' '] + rest, true, atoi) ==
            RunBist(BistBurstLength(atoi(burst)), Unsigned32(atoi(SplitToken(rest).0)))
  {
    SplitJoinedToken("sdram_bist", burst + [' '] + rest);
    assert "sdram_bist" + [' '] + burst + [' '] + rest == "sdram_bist" + [' '] + (burst + [' '] + rest);
    SplitJoinedToken(burst, rest);
  }

  /** sdram_bist with only a burst length: the random flag is atoi of the empty token. */
  lemma BistOneArgument(burst: seq<char>, atoi: seq<char> -> int)
    requires ' ' !in burst
    ensures Respond("sdram_bist" + [' '] + burst, true, atoi) ==
            RunBist(BistBurstLength(atoi(burst)), Unsigned32(atoi([])))
  {
    SplitJoinedToken("sdram_bist", burst);
    assert SplitToken(burst) == (burst, []);
    assert SplitToken([]) == ([], []);
  }

  /** A bare sdram_bist, where atoi reads 0 from the empty tokens, runs with burst length 128. */
  lemma BistDefaults(atoi: seq<char> -> int)
    requires atoi([]) == 0
    ensures Respond("sdram_bist", true, atoi) == RunBist(128, 0)
  {
    var line := "sdram_bist";
    assert ' ' !in line;
    assert SplitToken(line) == (line, []);
    assert Dispatch(line, true) == SdramBist;
    assert SplitToken([]) == ([], []);
  }

  /** Overwriting spaces with NUL twice is overwriting spaces with NUL. */
  lemma NulledSpacesTransitive(a: seq<char>, b: seq<char>, c: seq<char>)
    requires NulledSpaces(a, b) && NulledSpaces(b, c)
    ensures NulledSpaces(a, c)
  {
  }

  /**
   * The buffer after the get_token calls of console_service on the line in
   * b: one for the command and, for sdram_bist, two more for its arguments.
   */
  function SplitInPlace(b: seq<char>, hasSdramGenerator: bool): (r: seq<char>)
    requires Nul in b
    ensures NulledSpaces(b, r)
  {
    assert b[0..] == b;
    TokenStepSplits(b, 0);
    var (b1, s1) := TokenStep(b, 0);
    if Dispatch(CString(b1), hasSdramGenerator) == SdramBist then
      TokenStepSplits(b1, s1);
      var (b2, s2) := TokenStep(b1, s1);
      NulledSpacesTransitive(b, b1, b2);
      NulledSpacesTransitive(b, b2, TokenStep(b2, s2).0);
      TokenStep(b2, s2).0
    else b1
  }

  /**
   * The rest of console_service, on the line readstr returned in buf: split
   * off the first token, dispatch on it and, for sdram_bist, split off and
   * convert its two arguments.
   */
  method RunLine(buf: array<char>, hasSdramGenerator: bool, atoi: seq<char> -> int) returns (a: Action)
    requires Nul in buf[..]
    modifies buf
    ensures a == Respond(CString(old(buf[..])), hasSdramGenerator, atoi)
    ensures buf[..] == SplitInPlace(old(buf[..]), hasSdramGenerator)
    ensures NulledSpaces(old(buf[..]), buf[..])
  {
    ghost var text, terminated := CString(buf[..]), buf[..];
    assert buf[0..] == buf[..];
    var token, str := GetToken(buf, 0);
    assert buf[token..] == buf[..];
    var cmd := Dispatch(CString(buf[token..]), hasSdramGenerator);
    if cmd == SdramBist {
      ghost var afterFirst := buf[..];
      var arg1, str1 := GetToken(buf, str);
      var burstLength := BistBurstLength(atoi(CString(buf[arg1..])));
      ghost var afterSecond := buf[..];
      var arg2, str2 := GetToken(buf, str1);
      var random := Unsigned32(atoi(CString(buf[arg2..])));
      NulledSpacesTransitive(terminated, afterFirst, afterSecond);
      NulledSpacesTransitive(terminated, afterSecond, buf[..]);
      a := RunBist(burstLength, random);
    } else {
      a := Run(cmd);
    }
  }

  // ---- The console state ----------------------------------------------------------------------

  /** readstr's static buffer s and cursor ptr. */
  class Console {
    const s: array<char>
    var ptr: int
    /** The keys received since the last line end, oldest first. */
    ghost var pending: seq<char>

    ghost predicate Valid()
      reads this, s
    {
      s.Length == BufSize && 0 <= ptr < BufSize &&
      NoLineEnd(pending) && s[..ptr] == TypedLine(pending)
    }

    /** The characters typed so far on the current line. */
    function Line(): seq<char>
      reads this, s
      requires 0 <= ptr <= s.Length
    {
      s[..ptr]
    }

    /** The state at start-up: static storage is zero. */
    constructor ()
      ensures Valid() && fresh(s)
      ensures s[..] == seq(BufSize, _ => Nul) && ptr == 0 && pending == []
    {
      s := new char[BufSize](_ => Nul);
      ptr := 0;
      pending := [];
    }

    /**
     * readstr: consumes the pending character, if any. A line end stores the
     * terminating NUL at the cursor, rewinds it and returns the buffer;
     * every other character edits the line and nothing is returned.
     */
    method ReadStr(input: Option<char>) returns (line: Option<array<char>>)
      requires Valid()
      modifies this, s
      ensures Valid()
      ensures input.None? ==> line.None? && ptr == old(ptr) && s[..] == old(s[..]) && pending == old(pending)
      ensures input.Some? && IsLineEnd(input.value) ==>
                line == Some(s) && ptr == 0 && pending == [] &&
                s[..] == old(s[..])[old(ptr) := Nul] &&
                CString(s[..]) == CString(TypedLine(old(pending)))
      ensures input.Some? && !IsLineEnd(input.value) ==>
                line.None? && pending == old(pending) + [input.value] &&
                Line() == Edit(old(Line()), input.value) &&
                s[..] == (if IsStored(input.value) && old(ptr) < BufSize - 1 then old(s[..])[old(ptr) := input.value]
                          else old(s[..]))
    {
      if input.None? {
        return None;
      }
      var c := input.value;
      if IsErase(c) {
        if ptr > 0 {
          ptr := ptr - 1;
        }
      } else if c == Bell {
      } else if IsLineEnd(c) {
        ghost var typed := s[..ptr];
        s[ptr] := Nul;
        assert s[..] == typed + [Nul] + s[ptr + 1..];
        CStringOfTerminated(typed, s[ptr + 1..]);
        ptr := 0;
        pending := [];
        return Some(s);
      } else if ptr < BufSize - 1 {
        s[ptr] := c;
        ptr := ptr + 1;
      }
      TypedLineStep(pending, c);
      pending := pending + [c];
      line := None;
    }

    /**
     * console_service: reads the pending character; on a completed line,
     * splits its first token off in place, dispatches on it and, for
     * sdram_bist, parses the next two tokens. Returns what the line asks for
     * (after which the prompt is printed), or nothing when no line ended.
     */
    method Service(input: Option<char>, hasSdramGenerator: bool, atoi: seq<char> -> int) returns (r: Option<Action>)
      requires Valid()
      modifies this, s
      ensures Valid()
      ensures r.Some? <==> input.Some? && IsLineEnd(input.value)
      ensures r.Some? ==> r.value == Respond(CString(TypedLine(old(pending))), hasSdramGenerator, atoi) &&
                          ptr == 0 && pending == [] &&
                          old(s[..])[old(ptr) := Nul][old(ptr)] == Nul &&
                          s[..] == SplitInPlace(old(s[..])[old(ptr) := Nul], hasSdramGenerator) &&
                          NulledSpaces(old(s[..])[old(ptr) := Nul], s[..])
      ensures input.Some? && !IsLineEnd(input.value) ==>
                pending == old(pending) + [input.value] && Line() == Edit(old(Line()), input.value)
      ensures r.None? ==> s[..] == (if input.Some? && IsStored(input.value) && old(ptr) < BufSize - 1
                                    then old(s[..])[old(ptr) := input.value] else old(s[..]))
      ensures input.None? ==> ptr == old(ptr) && pending == old(pending)
    {
      var line := ReadStr(input);
      if line.None? {
        return None;
      }
      assert s[0..] == s[..];
      var action := RunLine(s, hasSdramGenerator, atoi);
      r := Some(action);
    }
  }
}
