/**
 * The lifecycle of the port-forwarding processes (internal/ssm/ssm.go): the
 * log writer that stamps each line of the session's output, starting a
 * session and waiting for its port, stopping and de-duplicating sessions,
 * and cleaning old log files. Processes, files, clocks and the TCP probe are
 * inputs: outcomes per attempt, per pid or per file are given as parameters.
 */
module Ssm {
  import opened Wrappers
  import opened Text
  import opened Process

  // ---------------------------------------------------------------------------
  // timestampWriter
  // ---------------------------------------------------------------------------

  /** The text of every complete line of `s`: each piece that a '\n' ends. */
  function CompleteLines(s: string): seq<string>
    decreases |s|
  {
    match IndexOfChar(s, '\n')
    case None => []
    case Some(i) => [s[..i]] + CompleteLines(s[i + 1..])
  }

  /** What follows the last '\n' of `s`: the partial line still waiting for its end. */
  function Pending(s: string): (r: string)
    ensures '\n' !in r
    decreases |s|
  {
    match IndexOfChar(s, '\n')
    case None => s
    case Some(i) => Pending(s[i + 1..])
  }

  /** The lines of `ls` that are not empty, in order. */
  function NonEmpty(ls: seq<string>): seq<string> {
    if ls == [] then [] else (if ls[0] == [] then [] else [ls[0]]) + NonEmpty(ls[1..])
  }

  /** The prefix the writer puts before a line. */
  function Stamped(stamp: string, line: string): string {
    "[" + stamp + "] [ssm] " + line
  }

  /** What the writer sends to the log file for `lines`, all stamped `stamp`. */
  function Render(lines: seq<string>, stamp: string): string {
    if lines == [] then [] else Stamped(stamp, lines[0]) + "\n" + Render(lines[1..], stamp)
  }

  /** A line followed by '\n' is the first complete line. */
  lemma {:induction false} LinesCons(x: string, y: string)
    requires '\n' !in x
    ensures CompleteLines(x + "\n" + y) == [x] + CompleteLines(y)
    ensures Pending(x + "\n" + y) == Pending(y)
  {
    var s := x + "\n" + y;
    assert s[..|x|] == x;
    IndexOfCharAt(s, '\n', |x|);
    assert s[|x| + 1..] == y;
  }

  /** Each line followed by its '\n'. */
  function Unlines(ls: seq<string>): string {
    if ls == [] then [] else ls[0] + "\n" + Unlines(ls[1..])
  }

  lemma {:induction false} UnlinesSnoc(ls: seq<string>, l: string)
    ensures Unlines(ls + [l]) == Unlines(ls) + l + "\n"
  {
    if ls != [] {
      assert (ls + [l])[1..] == ls[1..] + [l];
      UnlinesSnoc(ls[1..], l);
    } else {
      assert [] + [l] == [l];
    }
  }

  /** One turn of `Write`'s loop moves a line and its '\n' from the buffer to the lines taken. */
  lemma UnlinesStep(ls: seq<string>, l: string, rest: string)
    ensures Unlines(ls) + (l + "\n" + rest) == Unlines(ls + [l]) + rest
  {
    UnlinesSnoc(ls, l);
  }

  /** Lines without '\n', each ended by one, then a partial line: these are read back. */
  lemma {:induction false} LinesOfUnlines(ls: seq<string>, last: string)
    requires forall i :: 0 <= i < |ls| ==> '\n' !in ls[i]
    requires '\n' !in last
    ensures CompleteLines(Unlines(ls) + last) == ls
    ensures Pending(Unlines(ls) + last) == last
  {
    if ls == [] {
      assert Unlines(ls) + last == last;
    } else {
      LinesOfUnlines(ls[1..], last);
      LinesConsAppend(ls[0], Unlines(ls[1..]), last);
      assert ls == [ls[0]] + ls[1..];
    }
  }

  /** Nothing is lost: the complete lines, each with its '\n', then the partial line, are the input. */
  lemma {:induction false} LinesLoseNothing(s: string)
    ensures Unlines(CompleteLines(s)) + Pending(s) == s
    decreases |s|
  {
    var found := IndexOfChar(s, '\n');
    if found.Some? {
      var h, t := s[..found.value], s[found.value + 1..];
      assert s == h + "\n" + t;
      LinesCons(h, t);
      LinesLoseNothing(t);
      assert CompleteLines(s) == [h] + CompleteLines(t);
      assert ([h] + CompleteLines(t))[1..] == CompleteLines(t);
    }
  }

  /** `LinesCons` with the text after the first line given in two parts. */
  lemma {:induction false} LinesConsAppend(h: string, t: string, y: string)
    requires '\n' !in h
    ensures CompleteLines(h + "\n" + t + y) == [h] + CompleteLines(t + y)
    ensures Pending(h + "\n" + t + y) == Pending(t + y)
  {
    LinesCons(h, t + y);
    ConcatAssoc(h + "\n", t, y);
  }

  /** Text appended after a partial line joins that line: the complete lines. */
  lemma {:induction false} LinesConcat(x: string, y: string)
    ensures CompleteLines(x + y) == CompleteLines(x) + CompleteLines(Pending(x) + y)
    decreases |x|, 1
  {
    var found := IndexOfChar(x, '\n');
    if found.Some? {
      var h, t := x[..found.value], x[found.value + 1..];
      assert x == h + "\n" + t;
      LinesConcatStep(h, t, y);
    } else {
      assert Pending(x) == x;
      assert CompleteLines(x) == [];
    }
  }

  lemma {:induction false} LinesConcatStep(h: string, t: string, y: string)
    requires '\n' !in h
    ensures CompleteLines(h + "\n" + t + y) == CompleteLines(h + "\n" + t) + CompleteLines(Pending(h + "\n" + t) + y)
    decreases |h| + 1 + |t|, 0
  {
    LinesConcat(t, y);
    LinesCons(h, t);
    LinesConsAppend(h, t, y);
    ConcatAssoc([h], CompleteLines(t), CompleteLines(Pending(t) + y));
  }

  lemma ConcatAssoc<T>(a: seq<T>, b: seq<T>, c: seq<T>)
    ensures a + (b + c) == (a + b) + c
  {
  }

  /** Text appended after a partial line joins that line: the partial line left. */
  lemma {:induction false} PendingConcat(x: string, y: string)
    ensures Pending(x + y) == Pending(Pending(x) + y)
    decreases |x|
  {
    var found := IndexOfChar(x, '\n');
    if found.Some? {
      var h, t := x[..found.value], x[found.value + 1..];
      assert x == h + "\n" + t;
      PendingConcat(t, y);
      LinesCons(h, t);
      LinesConsAppend(h, t, y);
    } else {
      assert Pending(x) == x;
    }
  }

  lemma {:induction false} NonEmptyAppend(a: seq<string>, b: seq<string>)
    ensures NonEmpty(a + b) == NonEmpty(a) + NonEmpty(b)
  {
    if a != [] {
      assert (a + b)[1..] == a[1..] + b;
      NonEmptyAppend(a[1..], b);
    } else {
      assert a + b == b;
    }
  }

  lemma {:induction false} RenderAppend(a: seq<string>, b: seq<string>, stamp: string)
    ensures Render(a + b, stamp) == Render(a, stamp) + Render(b, stamp)
  {
    if a != [] {
      assert (a + b)[1..] == a[1..] + b;
      RenderAppend(a[1..], b, stamp);
    } else {
      assert a + b == b;
    }
  }

  /** One more line adds its record to what is rendered after `before`, unless it is empty. */
  lemma RenderNext(before: string, lines: seq<string>, line: string, stamp: string)
    ensures before + Render(NonEmpty(lines + [line]), stamp)
      == (before + Render(NonEmpty(lines), stamp)) + (if line == [] then [] else Stamped(stamp, line) + "\n")
  {
    var a, b := NonEmpty(lines), NonEmpty([line]);
    NonEmptyAppend(lines, [line]);
    RenderAppend(a, b, stamp);
    RenderOne(line, stamp);
    ConcatAssoc(before, Render(a, stamp), Render(b, stamp));
  }

  /** A single line renders as its record, or as nothing when it is empty. */
  lemma RenderOne(line: string, stamp: string)
    ensures Render(NonEmpty([line]), stamp) == if line == [] then [] else Stamped(stamp, line) + "\n"
  {
    if line == [] {
      assert NonEmpty([line]) == [];
    } else {
      assert NonEmpty([line]) == [line];
    }
  }

  /** Each line stamped, in order. */
  function StampAll(lines: seq<string>, stamp: string): (r: seq<string>)
    ensures |r| == |lines|
    ensures forall i :: 0 <= i < |lines| ==> r[i] == Stamped(stamp, lines[i])
  {
    if lines == [] then [] else [Stamped(stamp, lines[0])] + StampAll(lines[1..], stamp)
  }

  /**
   * Reading the log back: every rendered line is one complete line of the
   * file, stamped, in order, with nothing left over.
   */
  lemma {:induction false} RenderLines(lines: seq<string>, stamp: string)
    requires '\n' !in stamp
    requires forall i :: 0 <= i < |lines| ==> '\n' !in lines[i]
    ensures CompleteLines(Render(lines, stamp)) == StampAll(lines, stamp)
    ensures Pending(Render(lines, stamp)) == []
  {
    if lines != [] {
      var x := Stamped(stamp, lines[0]);
      StampedOneLine(stamp, lines[0]);
      var rest := Render(lines[1..], stamp);
      assert Render(lines, stamp) == x + "\n" + rest;
      LinesCons(x, rest);
      RenderLines(lines[1..], stamp);
    }
  }

  /** A stamped line holds no '\n' when neither the stamp nor the line does. */
  lemma StampedOneLine(stamp: string, line: string)
    requires '\n' !in stamp && '\n' !in line
    ensures '\n' !in Stamped(stamp, line)
  {
    var s := Stamped(stamp, line);
    forall i | 0 <= i < |s| ensures s[i] != '\n' {
      if i < 1 {
      } else if i < 1 + |stamp| {
        assert s[i] == stamp[i - 1];
      } else if i < 1 + |stamp| + 8 {
      } else {
        assert s[i] == line[i - 1 - |stamp| - 8];
      }
    }
  }

  /** Two writes stamped alike leave the same log and buffer as one write of both. */
  lemma WriteTwice(buf: string, p1: string, p2: string, stamp: string)
    ensures Pending(Pending(buf + p1) + p2) == Pending(buf + p1 + p2)
    ensures Render(NonEmpty(CompleteLines(buf + p1)), stamp)
              + Render(NonEmpty(CompleteLines(Pending(buf + p1) + p2)), stamp)
            == Render(NonEmpty(CompleteLines(buf + p1 + p2)), stamp)
  {
    LinesConcat(buf + p1, p2);
    PendingConcat(buf + p1, p2);
    NonEmptyAppend(CompleteLines(buf + p1), CompleteLines(Pending(buf + p1) + p2));
    RenderAppend(NonEmpty(CompleteLines(buf + p1)), NonEmpty(CompleteLines(Pending(buf + p1) + p2)), stamp);
  }

  /**
   * `timestampWriter`: buffers a partial line and writes every complete,
   * non-empty line to the log file with a time stamp.
   */
  class TimestampWriter {
    /** Everything written to the log file through this writer. */
    var out: string
    /** The partial line not yet written. */
    var buf: string

    constructor ()
      ensures out == [] && buf == []
    {
      out := [];
      buf := [];
    }

    /** The buffer never holds a '\n'. */
    predicate Valid()
      reads this
    {
      '\n' !in buf
    }

    /** `Write`: `stamp` stands for the clock reading of this call. */
    method Write(p: string, stamp: string) returns (n: int)
      modifies this
      ensures n == |p|
      ensures buf == Pending(old(buf) + p)
      ensures out == old(out) + Render(NonEmpty(CompleteLines(old(buf) + p)), stamp)
      ensures Valid()
    {
      buf := buf + p;
      n := |p|;
      ghost var all := buf;
      ghost var done: seq<string> := [];
      while true
        invariant all == Unlines(done) + buf
        invariant forall i :: 0 <= i < |done| ==> '\n' !in done[i]
        invariant out == old(out) + Render(NonEmpty(done), stamp)
        decreases |buf|
      {
        var idx := IndexOfChar(buf, '\n');
        if idx.None? {
          LinesOfUnlines(done, buf);
          break;
        }
        var line := buf[..idx.value];
        var rest := buf[idx.value + 1..];
        assert buf == line + "\n" + rest;
        UnlinesStep(done, line, rest);
        buf := rest;
        RenderNext(old(out), done, line, stamp);
        done := done + [line];
        if |line| == 0 {
          continue;
        }
        out := out + (Stamped(stamp, line) + "\n");
      }
    }
  }

  // ---------------------------------------------------------------------------
  // StartForward
  // ---------------------------------------------------------------------------

  /** The poll loop's bound: one probe every two seconds for 120 seconds. */
  const MaxAttempts: nat := 60

  const DocumentName: string := "AWS-StartPortForwardingSessionToRemoteHost"

  /** The `--parameters` value of the session: remote host, remote port 443, local port. */
  function SessionParams(host: string, port: int): string {
    ParamsText(host, IntToString(port))
  }

  /** The parameter string with the local port already printed as `digits`. */
  function ParamsText(host: string, digits: string): string {
    HostKey + host + "," + PortKey + "443" + "," + LocalPortKey + digits
  }

  /** The arguments given to `aws` to open the session. */
  function SessionArgs(bastionID: string, params: string, profile: string, region: string): seq<string> {
    ["ssm", "start-session", "--target", bastionID, "--document-name", DocumentName,
     "--parameters", params, "--profile", profile, "--region", region]
  }

  /** The name of the session's log file in the log directory. */
  function LogFileName(port: int, stamp: string): string {
    "ssm-port-" + IntToString(port) + "_" + stamp + ".log"
  }

  /** The first line of the log file: the connection's context. */
  function Header(stamp: string, clusterName: string, region: string, profile: string,
                  bastionID: string, host: string, port: int): string
  {
    "[" + stamp + "] cluster=" + clusterName + " region=" + region + " profile=" + profile
      + " bastion=" + bastionID + " target=" + host + " port=" + IntToString(port) + "\n"
  }

  // ---------------------------------------------------------------------------
  // The parameter string read back by parseLine
  // ---------------------------------------------------------------------------

  /** A printed integer is one word of digits and at most a sign. */
  lemma IntToStringPlain(n: int)
    ensures IntToString(n) != [] && NoSpace(IntToString(n)) && NoDelimiter(IntToString(n))
    ensures '=' !in IntToString(n)
  {
    var s := IntToString(n);
    assert forall i :: 0 <= i < |s| ==> s[i] == '-' || IsDigit(s[i]) by {
      if n < 0 {
        assert forall i :: 1 <= i < |s| ==> s[i] == NatToString(-n)[i - 1];
      }
    }
  }

  /** Words free of '=' in front of word `i` hide no key that ends in '='. */
  lemma {:induction false} SkipWords(ws: seq<string>, i: nat, key: string)
    requires i < |ws| && forall j :: 0 <= j < i ==> '=' !in ws[j]
    requires |key| > 0 && key[|key| - 1] == '=' && NoDelimiter(key)
    ensures ParamValue(Join(ws, " "), key) == ParamValue(Join(ws[i..], " "), key)
  {
    if i > 0 {
      AbsentByLastChar(ws[0], key);
      ParamValueAcross(ws[0], ' ', Join(ws[1..], " "), key);
      SkipWords(ws[1..], i - 1, key);
      assert ws[1..][i - 1..] == ws[i..];
    }
  }

  /** What follows word `i` when the words are joined with spaces: nothing, or a space and the rest. */
  function WordsAfter(ws: seq<string>, i: nat): string
    requires i < |ws|
  {
    if i + 1 == |ws| then "" else " " + Join(ws[i + 1..], " ")
  }

  /** The words from `i` on, joined: word `i`, then what follows it. */
  lemma JoinFrom(ws: seq<string>, i: nat)
    requires i < |ws|
    ensures Join(ws[i..], " ") == ws[i] + WordsAfter(ws, i)
  {
    if i + 1 < |ws| {
      assert ws[i..][1..] == ws[i + 1..];
    }
  }

  /** A key ending in '=' is looked up from the first word that may hold it. */
  lemma ParamInWords(ws: seq<string>, i: nat, key: string)
    requires i < |ws| && forall j :: 0 <= j < i ==> '=' !in ws[j]
    requires |key| > 0 && key[|key| - 1] == '=' && NoDelimiter(key)
    ensures ParamValue(Join(ws, " "), key) == ParamValue(ws[i] + WordsAfter(ws, i), key)
  {
    SkipWords(ws, i, key);
    JoinFrom(ws, i);
  }

  /** The parameter string followed by `tail`, grouped as each key's lemma reads it. */
  lemma ParamsLayout(host: string, digits: string, tail: string)
    ensures var s := HostKey + host + "," + PortKey + "443" + "," + LocalPortKey + digits + tail;
      && s == HostKey + host + ("," + PortKey + "443" + "," + LocalPortKey + digits + tail)
      && s == (HostKey + host) + [','] + (PortKey + "443" + ([','] + (LocalPortKey + digits + tail)))
      && s == (HostKey + host) + [','] + ((PortKey + "443") + [','] + (LocalPortKey + digits + tail))
  {
  }

  /** `host=` opens the parameter string. */
  lemma HostValue(host: string, digits: string, tail: string)
    requires NoDelimiter(host)
    ensures ParamValue(ParamsText(host, digits) + tail, HostKey) == host
  {
    ParamsLayout(host, digits, tail);
    ParamValueAtStart(HostKey, host, "," + PortKey + "443" + "," + LocalPortKey + digits + tail);
  }

  /** The host part holds no key that ends in '=' and is longer than `host=`. */
  lemma HostPartSkipped(host: string, rest: string, key: string)
    requires '=' !in host && NoDelimiter(key)
    requires |key| > |HostKey| && key[|key| - 1] == '='
    ensures ParamValue(HostKey + host + [','] + rest, key) == ParamValue(rest, key)
  {
    var a := HostKey + host;
    forall j | |key| - 1 <= j < |a| ensures a[j] != '=' {
      assert a[j] == host[j - |HostKey|];
    }
    AbsentByLastChar(a, key);
    ParamValueAcross(a, ',', rest, key);
  }

  /** `portNumber=` comes right after the host. */
  lemma PortValue(host: string, digits: string, tail: string)
    requires '=' !in host
    ensures ParamValue(ParamsText(host, digits) + tail, PortKey) == "443"
  {
    var rest := LocalPortKey + digits + tail;
    ParamsLayout(host, digits, tail);
    KeysEndInEquals();
    HostPartSkipped(host, PortKey + "443" + ([','] + rest), PortKey);
    RemotePortAtStart(rest);
  }

  lemma RemotePortAtStart(rest: string)
    ensures ParamValue(PortKey + "443" + ([','] + rest), PortKey) == "443"
  {
    ParamValueAtStart(PortKey, "443", [','] + rest);
  }

  /** `localPortNumber=` comes last, after the host and the remote port. */
  lemma LocalPortValue(host: string, digits: string, tail: string)
    requires '=' !in host && NoDelimiter(digits)
    requires tail == [] || IsDelimiter(tail[0])
    ensures ParamValue(ParamsText(host, digits) + tail, LocalPortKey) == digits
  {
    var rest := LocalPortKey + digits + tail;
    ParamsLayout(host, digits, tail);
    HostPartSkipped(host, (PortKey + "443") + [','] + rest, LocalPortKey);
    AbsentByLastChar(PortKey + "443", LocalPortKey);
    ParamValueAcross(PortKey + "443", ',', rest, LocalPortKey);
    ParamValueAtStart(LocalPortKey, digits, tail);
  }

  /** The three keys end in '=' and hold no delimiter. */
  lemma KeysEndInEquals()
    ensures |HostKey| > 0 && HostKey[|HostKey| - 1] == '=' && NoDelimiter(HostKey)
    ensures |PortKey| > 0 && PortKey[|PortKey| - 1] == '=' && NoDelimiter(PortKey)
    ensures |LocalPortKey| > 0 && LocalPortKey[|LocalPortKey| - 1] == '=' && NoDelimiter(LocalPortKey)
  {
  }

  /** The remote port written into the parameter string parses back. */
  lemma RemotePortParses()
    ensures Atoi("443") == Some(DefaultTargetPort)
  {
    assert "443"[..2] == "44" && "44"[..1] == "4" && "4"[..0] == "";
    assert DigitsValue("4") == 4;
    assert DigitsValue("44") == 44;
    assert DigitsValue("443") == 443;
  }

  /** The three values found in an argument list that carries the parameter string. */
  lemma SessionArguments(args: seq<string>, i: nat, host: string, port: int)
    requires i < |args| && args[i] == SessionParams(host, port)
    requires forall j :: 0 <= j < i ==> '=' !in args[j]
    requires NoDelimiter(host) && '=' !in host
    ensures ParamValue(Join(args, " "), HostKey) == host
    ensures ParamValue(Join(args, " "), PortKey) == "443"
    ensures ParamValue(Join(args, " "), LocalPortKey) == IntToString(port)
  {
    KeysEndInEquals();
    var digits, tail := IntToString(port), WordsAfter(args, i);
    assert args[i] == ParamsText(host, digits);
    ParamInWords(args, i, HostKey);
    HostValue(host, digits, tail);
    ParamInWords(args, i, PortKey);
    PortValue(host, digits, tail);
    ParamInWords(args, i, LocalPortKey);
    IntToStringPlain(port);
    LocalPortValue(host, digits, tail);
  }

  /** The arguments `parseLine` rebuilds from the fields of such a line carry the values. */
  lemma SessionLineArguments(ws: seq<string>, i: nat, host: string, port: int)
    requires 1 <= i < |ws| && ws[i] == SessionParams(host, port)
    requires forall j :: 1 <= j < i ==> '=' !in ws[j]
    requires NoDelimiter(host) && '=' !in host
    ensures ParamValue(Arguments(ws), HostKey) == host
    ensures ParamValue(Arguments(ws), PortKey) == "443"
    ensures ParamValue(Arguments(ws), LocalPortKey) == IntToString(port)
  {
    var args := ws[1..];
    assert forall j :: 0 <= j < i - 1 ==> args[j] == ws[j + 1];
    SessionArguments(args, i - 1, host, port);
  }

  /**
   * A process line made of the words `ws` (a pid, then the command's
   * arguments) whose arguments carry the session's parameter string at
   * `ws[i]` parses to the session's forward: pid, local port, host and the
   * remote port 443, as long as no argument in front of the parameters
   * contains '='.
   */
  lemma ParseSessionLine(ws: seq<string>, i: nat, pid: int, host: string, port: int)
    requires MinInt <= port <= MaxInt
    requires |ws| >= 1 && Atoi(ws[0]) == Some(pid)
    requires forall j :: 0 <= j < |ws| ==> ws[j] != [] && NoSpace(ws[j])
    requires 1 <= i < |ws| && ws[i] == SessionParams(host, port)
    requires forall j :: 1 <= j < i ==> '=' !in ws[j]
    requires host != [] && NoDelimiter(host) && '=' !in host
    ensures ParseLine(Join(ws, " ")) == Some(Forward(pid, port, host, DefaultTargetPort))
  {
    FieldsOfJoin(ws);
    SessionLineArguments(ws, i, host, port);
    AtoiIntToString(port);
    RemotePortParses();
    ParseLineFrom(Join(ws, " "), pid, host, port);
  }

  /** The parameter string is one white-space-free word when the host is. */
  lemma SessionParamsWord(host: string, port: int)
    requires NoSpace(host)
    ensures SessionParams(host, port) != [] && NoSpace(SessionParams(host, port))
  {
    IntToStringPlain(port);
    ParamsTextWord(host, IntToString(port));
  }

  lemma ParamKeysPlain()
    ensures NoSpace(HostKey) && NoSpace("," + PortKey + "443" + "," + LocalPortKey)
  {
  }

  lemma ParamsTextWord(host: string, digits: string)
    requires NoSpace(host) && NoSpace(digits)
    ensures ParamsText(host, digits) != [] && NoSpace(ParamsText(host, digits))
  {
    var b := "," + PortKey + "443" + "," + LocalPortKey;
    ParamKeysPlain();
    NoSpaceConcat(HostKey, host);
    NoSpaceConcat(HostKey + host, b);
    NoSpaceConcat(HostKey + host + b, digits);
    assert ParamsText(host, digits) == HostKey + host + b + digits;
  }

  /** The process line of a launched session: its pid, then `aws` and its arguments. */
  function LaunchedWords(pid: int, bastionID: string, host: string, port: int, profile: string, region: string): seq<string> {
    [IntToString(pid), "aws"] + SessionArgs(bastionID, SessionParams(host, port), profile, region)
  }

  /** Printable ASCII holds no white space and no '='. */
  predicate Printable(w: string) {
    forall i :: 0 <= i < |w| ==> '!' <= w[i] <= '~' && w[i] != '='
  }

  lemma PrintableWord(w: string)
    requires Printable(w)
    ensures NoSpace(w) && '=' !in w
  {
  }

  /** The fixed words of the `aws` command line. */
  lemma FixedWordsPrintable()
    ensures Printable("aws") && Printable("ssm") && Printable("start-session")
    ensures Printable("--target") && Printable("--document-name") && Printable(DocumentName)
    ensures Printable("--parameters") && Printable("--profile") && Printable("--region")
  {
    DocumentNamePrintable();
  }

  lemma DocumentNamePrintable()
    ensures Printable(DocumentName)
  {
  }

  /** The words of a launched session's process line: the index of the parameters, and the words before them. */
  lemma LaunchedWordsShape(pid: int, bastionID: string, host: string, port: int, profile: string, region: string)
    requires bastionID != [] && NoSpace(bastionID) && '=' !in bastionID
    requires profile != [] && NoSpace(profile) && region != [] && NoSpace(region)
    requires NoSpace(host)
    ensures var ws := LaunchedWords(pid, bastionID, host, port, profile, region);
      && |ws| == 14 && ws[9] == SessionParams(host, port)
      && (forall j :: 0 <= j < |ws| ==> ws[j] != [] && NoSpace(ws[j]))
      && (forall j :: 1 <= j < 9 ==> '=' !in ws[j])
      && ws[1] == "aws" && ws[2] == "ssm" && ws[3] == "start-session" && ws[7] == DocumentName
      && ws[13] == region
  {
    LaunchedWordsPlain(pid, bastionID, host, port, profile, region);
    LaunchedWordsNoEquals(pid, bastionID, host, port, profile, region);
  }

  /** Every word of a launched session's process line is non-empty and free of white space. */
  lemma LaunchedWordsPlain(pid: int, bastionID: string, host: string, port: int, profile: string, region: string)
    requires bastionID != [] && NoSpace(bastionID)
    requires profile != [] && NoSpace(profile) && region != [] && NoSpace(region)
    requires NoSpace(host)
    ensures var ws := LaunchedWords(pid, bastionID, host, port, profile, region);
      forall j :: 0 <= j < |ws| ==> ws[j] != [] && NoSpace(ws[j])
  {
    var ws := LaunchedWords(pid, bastionID, host, port, profile, region);
    IntToStringPlain(pid);
    SessionParamsWord(host, port);
    FixedWordsPrintable();
    forall j | 0 <= j < |ws| && j !in {0, 5, 9, 11, 13}
      ensures ws[j] != [] && NoSpace(ws[j])
    {
      PrintableWord(ws[j]);
    }
  }

  /** No word in front of a launched session's parameters holds '='. */
  lemma LaunchedWordsNoEquals(pid: int, bastionID: string, host: string, port: int, profile: string, region: string)
    requires '=' !in bastionID
    ensures var ws := LaunchedWords(pid, bastionID, host, port, profile, region);
      forall j :: 1 <= j < 9 ==> '=' !in ws[j]
  {
    var ws := LaunchedWords(pid, bastionID, host, port, profile, region);
    FixedWordsPrintable();
    forall j | 1 <= j < 9 && j != 5
      ensures '=' !in ws[j]
    {
      PrintableWord(ws[j]);
    }
  }

  /** The document name carries the marker `ListForwards` looks for. */
  lemma DocumentNameMarked()
    ensures Contains(DocumentName, "AWS-StartPortForwardingSession")
  {
    ContainsInside("", "AWS-StartPortForwardingSession", "ToRemoteHost");
    assert "" + "AWS-StartPortForwardingSession" + "ToRemoteHost" == DocumentName;
  }

  /** A launched session's process line carries the four markers. */
  lemma LaunchedLineMarked(ws: seq<string>)
    requires |ws| >= 8 && ws[1] == "aws" && ws[2] == "ssm" && ws[3] == "start-session" && ws[7] == DocumentName
    ensures IsSessionLine(Join(ws, " "))
  {
    ContainsInside("", "aws", "");
    ContainsInside("", "ssm", "");
    ContainsInside("", "start-session", "");
    assert "" + "aws" + "" == "aws" && "" + "ssm" + "" == "ssm";
    assert "" + "start-session" + "" == "start-session";
    JoinContains(ws, " ", 1, "aws");
    JoinContains(ws, " ", 2, "ssm");
    JoinContains(ws, " ", 3, "start-session");
    DocumentNameMarked();
    JoinContains(ws, " ", 7, "AWS-StartPortForwardingSession");
  }

  /**
   * The round trip between launching and listing: the process line of a
   * session started for `host` on local `port` passes `ListForwards`'s filter
   * and parses back to that session's pid, port and host, with remote port 443.
   */
  lemma LaunchedLineListed(pid: int, bastionID: string, host: string, port: int, profile: string, region: string)
    requires MinInt <= pid <= MaxInt && MinInt <= port <= MaxInt
    requires bastionID != [] && NoSpace(bastionID) && '=' !in bastionID
    requires profile != [] && NoSpace(profile) && region != [] && NoSpace(region)
    requires host != [] && NoSpace(host) && NoDelimiter(host) && '=' !in host
    ensures Candidate(Join(LaunchedWords(pid, bastionID, host, port, profile, region), " "))
      == Some(Forward(pid, port, host, DefaultTargetPort))
  {
    var ws := LaunchedWords(pid, bastionID, host, port, profile, region);
    LaunchedWordsShape(pid, bastionID, host, port, profile, region);
    var line := Join(ws, " ");
    JoinEnds(ws, " ");
    TrimSpaceUnchanged(line);
    LaunchedLineMarked(ws);
    AtoiIntToString(pid);
    ParseSessionLine(ws, 9, pid, host, port);
  }

  /** What `StartForward` does outside the program, in order. */
  datatype Effect =
    | MarkInactive(port: int)
    | CreateLog(name: string)
    | WriteLog(text: string)
    | Launch(command: string, args: seq<string>)
    | CloseLog

  datatype ForwardError =
    | NoPortAvailable
    | LogCreateFailed(cause: string)
    | LaunchFailed(cause: string)
    | ProcessDied(pid: int, log: string)
    | NotListening(port: int, log: string)
  {
    /** The error text `StartForward` returns. */
    function Message(): string {
      match this
      case NoPortAvailable => NoPortMessage
      case LogCreateFailed(cause) => "create ssm log file: " + cause
      case LaunchFailed(cause) => "start ssm session: " + cause
      case ProcessDied(pid, log) => "SSM process (PID " + IntToString(pid) + ") died. Log:\n" + log
      case NotListening(port, log) => "port " + IntToString(port) + " not listening after 120s. SSM log:\n" + log
    }
  }

  /**
   * What `StartForward` observes of the outside world: whether creating the
   * log file and starting the process fail and why, the process id, whether
   * the port accepts connections and whether the process has exited at each
   * poll attempt (numbered from 1), the log file's content when read back,
   * and the two clock readings used in the file name and in the header.
   */
  datatype World = World(
    createErr: Option<string>,
    startErr: Option<string>,
    pid: int,
    ready: nat -> bool,
    exited: nat -> bool,
    logContent: string,
    fileStamp: string,
    headerStamp: string)

  datatype Outcome = Ready | Exited | TimedOut

  /** Neither readiness nor exit was seen at attempts 1 to `k`. */
  predicate Quiet(ready: nat -> bool, exited: nat -> bool, k: nat) {
    forall j: nat :: 1 <= j <= k ==> !ready(j) && !exited(j)
  }

  /**
   * The poll loop: at each attempt the port is probed first and the exit
   * checked second; after 60 quiet attempts it gives up.
   */
  method PollUntilReady(ready: nat -> bool, exited: nat -> bool) returns (outcome: Outcome, attempts: nat)
    ensures 1 <= attempts <= MaxAttempts
    ensures Quiet(ready, exited, attempts - 1)
    ensures outcome == Ready <==> ready(attempts)
    ensures outcome == Exited <==> !ready(attempts) && exited(attempts)
    ensures outcome == TimedOut ==> attempts == MaxAttempts && Quiet(ready, exited, MaxAttempts)
  {
    attempts := 1;
    while attempts <= MaxAttempts
      invariant 1 <= attempts <= MaxAttempts + 1
      invariant Quiet(ready, exited, attempts - 1)
    {
      if ready(attempts) {
        return Ready, attempts;
      }
      if exited(attempts) {
        return Exited, attempts;
      }
      attempts := attempts + 1;
    }
    return TimedOut, MaxAttempts;
  }

  /**
   * The poll's outcome is decided by the first attempt at which the port is
   * ready or the process has exited, and by sixty quiet attempts otherwise.
   */
  lemma PollDecided(ready: nat -> bool, exited: nat -> bool, outcome: Outcome, attempts: nat)
    requires 1 <= attempts <= MaxAttempts
    requires Quiet(ready, exited, attempts - 1)
    requires outcome == Ready <==> ready(attempts)
    requires outcome == Exited <==> !ready(attempts) && exited(attempts)
    requires outcome == TimedOut ==> attempts == MaxAttempts && Quiet(ready, exited, MaxAttempts)
    ensures (exists k: nat :: 1 <= k <= MaxAttempts && ready(k) && Quiet(ready, exited, k - 1)) ==> outcome == Ready
    ensures (exists k: nat :: 1 <= k <= MaxAttempts && !ready(k) && exited(k) && Quiet(ready, exited, k - 1))
      ==> outcome == Exited
    ensures Quiet(ready, exited, MaxAttempts) ==> outcome == TimedOut
  {
  }

  /** The effects before the process is launched, for an allocated `port`. */
  function Prepared(hasMarkInactive: bool, port: int, w: World): seq<Effect> {
    (if hasMarkInactive then [MarkInactive(port)] else []) + [CreateLog(LogFileName(port, w.fileStamp))]
  }

  /**
   * `StartForward`: allocate a port, mark stale kubeconfig entries for it
   * (when a marker is given), open the log, launch the session and poll.
   */
  method StartForward(clusterName: string, bastionID: string, targetHost: string, profile: string,
                      region: string, reserved: set<int>, listening: int -> bool,
                      hasMarkInactive: bool, w: World)
    returns (r: Result<int, ForwardError>, effects: seq<Effect>)
    ensures r == Err(NoPortAvailable) <==> AllTaken(reserved, listening)
    ensures AllTaken(reserved, listening) ==> effects == []
    ensures !AllTaken(reserved, listening) ==>
      var port := LowestFree(reserved, listening).value;
      var host := TrimPrefix(targetHost, "https://");
      var header := WriteLog(Header(w.headerStamp, clusterName, region, profile, bastionID, host, port));
      var launch := Launch("aws", SessionArgs(bastionID, SessionParams(host, port), profile, region));
      && (w.createErr.Some? ==>
            r == Err(LogCreateFailed(w.createErr.value)) && effects == Prepared(hasMarkInactive, port, w))
      && (w.createErr.None? && w.startErr.Some? ==>
            r == Err(LaunchFailed(w.startErr.value)) && effects == Prepared(hasMarkInactive, port, w) + [header, CloseLog])
      && (w.createErr.None? && w.startErr.None? ==>
            effects == Prepared(hasMarkInactive, port, w) + [header, launch] && Awaited(r, port, w))
    ensures r.Ok? ==> IsLowestFree(r.value, reserved, listening)
  {
    effects := [];
    var found := FindAvailablePort(reserved, listening);
    if found.Err? {
      return Err(NoPortAvailable), effects;
    }
    var port := found.value;
    if hasMarkInactive {
      effects := effects + [MarkInactive(port)];
    }
    var host := TrimPrefix(targetHost, "https://");
    var params := SessionParams(host, port);
    var args := SessionArgs(bastionID, params, profile, region);
    effects := effects + [CreateLog(LogFileName(port, w.fileStamp))];
    if w.createErr.Some? {
      return Err(LogCreateFailed(w.createErr.value)), effects;
    }
    effects := effects + [WriteLog(Header(w.headerStamp, clusterName, region, profile, bastionID, host, port))];
    if w.startErr.Some? {
      effects := effects + [CloseLog];
      return Err(LaunchFailed(w.startErr.value)), effects;
    }
    effects := effects + [Launch("aws", args)];
    r := AwaitSession(port, w);
  }

  /**
   * The result once the session is launched on `port`: the port when it
   * becomes ready at an attempt before which nothing happened, "died" when
   * the process exits first, and "not listening" after sixty quiet attempts.
   */
  ghost predicate Awaited(r: Result<int, ForwardError>, port: int, w: World) {
    && (r == Ok(port) <==>
          exists k: nat :: 1 <= k <= MaxAttempts && w.ready(k) && Quiet(w.ready, w.exited, k - 1))
    && (r == Err(ProcessDied(w.pid, w.logContent)) <==>
          exists k: nat :: 1 <= k <= MaxAttempts && !w.ready(k) && w.exited(k) && Quiet(w.ready, w.exited, k - 1))
    && (r == Err(NotListening(port, w.logContent)) <==> Quiet(w.ready, w.exited, MaxAttempts))
  }

  /** After a successful launch on `port`: poll, and turn the outcome into the result. */
  method AwaitSession(port: int, w: World) returns (r: Result<int, ForwardError>)
    ensures Awaited(r, port, w)
    ensures r == Ok(port) || r == Err(ProcessDied(w.pid, w.logContent)) || r == Err(NotListening(port, w.logContent))
  {
    var outcome, attempts := PollUntilReady(w.ready, w.exited);
    PollDecided(w.ready, w.exited, outcome, attempts);
    match outcome
    case Ready =>
      r := Ok(port);
    case Exited =>
      r := Err(ProcessDied(w.pid, w.logContent));
    case TimedOut =>
      r := Err(NotListening(port, w.logContent));
  }

  // ---------------------------------------------------------------------------
  // killProcess and StopAll
  // ---------------------------------------------------------------------------

  /** What signalling a process gives: whether it is found and whether SIGTERM is delivered. */
  datatype KillOutcome = KillOutcome(found: bool, termDelivered: bool)

  datatype Signal = Term | Kill

  predicate Succeeds(o: KillOutcome) {
    o.found && o.termDelivered
  }

  /**
   * `killProcess`: SIGTERM, then (after a pause) SIGKILL whatever its outcome;
   * the result says whether the process was found and took SIGTERM.
   */
  method KillProcess(pid: int, kill: int -> KillOutcome) returns (ok: bool, sent: seq<Signal>)
    ensures ok <==> kill(pid).found && kill(pid).termDelivered
    ensures !kill(pid).found ==> sent == []
    ensures kill(pid).found ==> sent == (if kill(pid).termDelivered then [Term, Kill] else [Term])
  {
    var o := kill(pid);
    if !o.found {
      return false, [];
    }
    sent := [Term];
    if !o.termDelivered {
      return false, sent;
    }
    sent := sent + [Kill];
    ok := true;
  }

  /** The number of forwards in `fs` whose kill succeeds. */
  function CountKilled(fs: seq<Forward>, kill: int -> KillOutcome): (n: nat)
    ensures n <= |fs|
  {
    if fs == [] then 0
    else CountKilled(fs[..|fs| - 1], kill) + (if Succeeds(kill(fs[|fs| - 1].pid)) then 1 else 0)
  }

  lemma {:induction false} CountKilledAppend(a: seq<Forward>, b: seq<Forward>, kill: int -> KillOutcome)
    ensures CountKilled(a + b, kill) == CountKilled(a, kill) + CountKilled(b, kill)
    decreases |b|
  {
    if b == [] {
      assert a + b == a;
    } else {
      var b' := b[..|b| - 1];
      assert (a + b)[..|a + b| - 1] == a + b';
      CountKilledAppend(a, b', kill);
    }
  }

  /** Counting is independent of order: a kill succeeds for every forward whose outcome says so. */
  lemma {:induction false} CountKilledAll(fs: seq<Forward>, kill: int -> KillOutcome)
    ensures (forall i :: 0 <= i < |fs| ==> Succeeds(kill(fs[i].pid))) ==> CountKilled(fs, kill) == |fs|
    ensures (forall i :: 0 <= i < |fs| ==> !Succeeds(kill(fs[i].pid))) ==> CountKilled(fs, kill) == 0
  {
    if fs != [] {
      CountKilledAll(fs[..|fs| - 1], kill);
    }
  }

  /** Kill each forward in turn, counting the successes. */
  method KillEach(fs: seq<Forward>, kill: int -> KillOutcome) returns (count: nat)
    ensures count == CountKilled(fs, kill)
  {
    count := 0;
    for i := 0 to |fs|
      invariant count == CountKilled(fs[..i], kill)
    {
      var ok, _ := KillProcess(fs[i].pid, kill);
      if ok {
        count := count + 1;
      }
      assert fs[..i + 1][..i] == fs[..i];
    }
    assert fs[..|fs|] == fs;
  }

  /** `StopAll`: kill every listed forward; a failed listing stops nothing. */
  method StopAll(psOutput: Result<string, string>, listening: int -> bool, kill: int -> KillOutcome)
    returns (count: nat)
    ensures Listed(psOutput, listening).Err? ==> count == 0
    ensures Listed(psOutput, listening).Ok? ==>
      count == CountKilled(Listed(psOutput, listening).value, kill)
    ensures Listed(psOutput, listening).Ok? ==> count <= |Listed(psOutput, listening).value|
  {
    var listed := ListForwards(psOutput, listening);
    if listed.Err? {
      return 0;
    }
    count := KillEach(listed.value, kill);
  }

  // ---------------------------------------------------------------------------
  // PruneDuplicates
  // ---------------------------------------------------------------------------

  /** The forwards of `fs` to host `h`, in order. */
  function OfHost(fs: seq<Forward>, h: string): seq<Forward> {
    if fs == [] then []
    else OfHost(fs[..|fs| - 1], h) + (if fs[|fs| - 1].targetHost == h then [fs[|fs| - 1]] else [])
  }

  /** The forwards of `fs` whose host is in `hosts`, in order. */
  function OnHosts(fs: seq<Forward>, hosts: set<string>): seq<Forward> {
    if fs == [] then []
    else OnHosts(fs[..|fs| - 1], hosts) + (if fs[|fs| - 1].targetHost in hosts then [fs[|fs| - 1]] else [])
  }

  function Hosts(fs: seq<Forward>): set<string> {
    set f | f in fs :: f.targetHost
  }

  /** All but the first element. */
  function Tail(s: seq<Forward>): seq<Forward> {
    if s == [] then [] else s[1..]
  }

  lemma {:induction false} OfHostAppend(a: seq<Forward>, b: seq<Forward>, h: string)
    ensures OfHost(a + b, h) == OfHost(a, h) + OfHost(b, h)
    decreases |b|
  {
    if b == [] {
      assert a + b == a;
    } else {
      var b' := b[..|b| - 1];
      assert (a + b)[..|a + b| - 1] == a + b';
      OfHostAppend(a, b', h);
      ConcatAssoc(OfHost(a, h), OfHost(b', h), if b[|b| - 1].targetHost == h then [b[|b| - 1]] else []);
    }
  }

  /** Forwards all to one host: those to `h` are all of them or none. */
  lemma {:induction false} OfHostUniform(items: seq<Forward>, g: string, h: string)
    requires forall i :: 0 <= i < |items| ==> items[i].targetHost == g
    ensures OfHost(items, h) == if g == h then items else []
  {
    if items != [] {
      OfHostUniform(items[..|items| - 1], g, h);
      assert items == items[..|items| - 1] + [items[|items| - 1]];
    }
  }

  /** A host that occurs has at least one forward. */
  lemma {:induction false} OfHostPresent(fs: seq<Forward>, h: string)
    requires h in Hosts(fs)
    ensures |OfHost(fs, h)| >= 1
  {
    var f :| f in fs && f.targetHost == h;
    var i :| 0 <= i < |fs| && fs[i] == f;
    if i < |fs| - 1 {
      assert fs[..|fs| - 1][i] == f;
      OfHostPresent(fs[..|fs| - 1], h);
    }
  }

  /** Adding a host adds its forwards. */
  lemma {:induction false} OnHostsAdd(fs: seq<Forward>, hosts: set<string>, h: string)
    requires h !in hosts
    ensures |OnHosts(fs, hosts + {h})| == |OnHosts(fs, hosts)| + |OfHost(fs, h)|
  {
    if fs != [] {
      OnHostsAdd(fs[..|fs| - 1], hosts, h);
    }
  }

  lemma {:induction false} OnHostsEmpty(fs: seq<Forward>)
    ensures OnHosts(fs, {}) == []
  {
    if fs != [] {
      OnHostsEmpty(fs[..|fs| - 1]);
    }
  }

  /** Selecting every host that occurs keeps every forward. */
  lemma {:induction false} OnHostsAll(fs: seq<Forward>, hosts: set<string>)
    requires Hosts(fs) <= hosts
    ensures OnHosts(fs, hosts) == fs
  {
    if fs != [] {
      var init := fs[..|fs| - 1];
      var last := fs[|fs| - 1];
      assert fs == init + [last];
      HostsSnoc(init, last);
      OnHostsAll(init, hosts);
    }
  }

  /** The forwards to `h` are forwards of `fs`, all to `h`. */
  lemma {:induction false} OfHostSound(fs: seq<Forward>, h: string)
    ensures forall f :: f in OfHost(fs, h) ==> f in fs && f.targetHost == h
  {
    if fs != [] {
      OfHostSound(fs[..|fs| - 1], h);
      assert forall f :: f in fs[..|fs| - 1] ==> f in fs;
    }
  }

  /** A host that does not occur has no forwards. */
  lemma OfHostAbsent(fs: seq<Forward>, h: string)
    requires h !in Hosts(fs)
    ensures OfHost(fs, h) == []
  {
    OfHostSound(fs, h);
    if OfHost(fs, h) != [] {
      assert OfHost(fs, h)[0] in OfHost(fs, h);
    }
  }

  lemma HostsSnoc(fs: seq<Forward>, f: Forward)
    ensures Hosts(fs + [f]) == Hosts(fs) + {f.targetHost}
  {
    assert forall g :: g in fs + [f] <==> g in fs || g == f;
  }

  /** `byTarget` maps exactly the hosts of `fs`, each to its forwards in order. */
  predicate GroupedBy(byTarget: map<string, seq<Forward>>, fs: seq<Forward>) {
    && byTarget.Keys == Hosts(fs)
    && forall h :: h in byTarget ==> byTarget[h] == OfHost(fs, h)
  }

  /** One step of grouping: `byTarget[f.TargetHost] = append(byTarget[f.TargetHost], f)`. */
  lemma GroupStep(fs: seq<Forward>, i: nat, byTarget: map<string, seq<Forward>>)
    requires i < |fs| && GroupedBy(byTarget, fs[..i])
    ensures var f := fs[i];
      var items := if f.targetHost in byTarget then byTarget[f.targetHost] else [];
      GroupedBy(byTarget[f.targetHost := items + [f]], fs[..i + 1])
  {
    var prefix, f := fs[..i], fs[i];
    assert fs[..i + 1] == prefix + [f];
    HostsSnoc(prefix, f);
    assert (prefix + [f])[..|prefix|] == prefix;
    if f.targetHost !in byTarget {
      OfHostAbsent(prefix, f.targetHost);
    }
  }

  /** Group the forwards by target host, keeping each group in order. */
  method Group(fs: seq<Forward>) returns (byTarget: map<string, seq<Forward>>)
    ensures GroupedBy(byTarget, fs)
  {
    byTarget := map[];
    for i := 0 to |fs|
      invariant GroupedBy(byTarget, fs[..i])
    {
      var f := fs[i];
      GroupStep(fs, i, byTarget);
      var items := if f.targetHost in byTarget then byTarget[f.targetHost] else [];
      byTarget := byTarget[f.targetHost := items + [f]];
    }
    assert fs[..|fs|] == fs;
  }

  /** The forwards dropped from the groups of `order`, visited in that order. */
  function Drops(fs: seq<Forward>, order: seq<string>): seq<Forward> {
    if order == [] then []
    else Drops(fs, order[..|order| - 1]) + Tail(OfHost(fs, order[|order| - 1]))
  }

  predicate Distinct(order: seq<string>) {
    forall i, j :: 0 <= i < j < |order| ==> order[i] != order[j]
  }

  /** The tail of a group is all to the group's host. */
  lemma OfHostTail(fs: seq<Forward>, h: string, g: string)
    ensures OfHost(Tail(OfHost(fs, h)), g) == if g == h then Tail(OfHost(fs, h)) else []
  {
    OfHostSound(fs, h);
    var dropped := Tail(OfHost(fs, h));
    assert forall i :: 0 <= i < |dropped| ==> dropped[i] in OfHost(fs, h);
    OfHostUniform(dropped, h, g);
  }

  /** Visiting each group once drops exactly the tail of each visited group. */
  lemma {:induction false} DropsOfHost(fs: seq<Forward>, order: seq<string>, g: string)
    requires Distinct(order)
    ensures OfHost(Drops(fs, order), g) == if g in order then Tail(OfHost(fs, g)) else []
  {
    if order != [] {
      var init, h := order[..|order| - 1], order[|order| - 1];
      assert order == init + [h];
      DropsOfHost(fs, init, g);
      OfHostAppend(Drops(fs, init), Tail(OfHost(fs, h)), g);
      OfHostTail(fs, h, g);
      if g == h {
        assert g !in init;
      }
    }
  }

  /** Each visited group loses one forward. */
  lemma {:induction false} DropsLength(fs: seq<Forward>, order: seq<string>, visited: set<string>)
    requires Distinct(order)
    requires forall x :: x in visited <==> x in order
    requires visited <= Hosts(fs)
    ensures |Drops(fs, order)| + |order| == |OnHosts(fs, visited)|
    decreases |order|
  {
    if order == [] {
      assert visited == {};
      OnHostsEmpty(fs);
    } else {
      var init, h := order[..|order| - 1], order[|order| - 1];
      assert order == init + [h];
      var rest := visited - {h};
      DropsLength(fs, init, rest);
      OfHostPresent(fs, h);
      OnHostsAdd(fs, rest, h);
      assert rest + {h} == visited;
    }
  }

  /**
   * `PruneDuplicates`: group the listed forwards by target host and kill
   * every one but the first of each group. `attempted` is the sequence of
   * forwards whose kill is attempted; the groups are visited in no fixed order.
   */
  method PruneDuplicates(psOutput: Result<string, string>, listening: int -> bool, kill: int -> KillOutcome)
    returns (total: nat, ghost attempted: seq<Forward>)
    ensures Listed(psOutput, listening).Err? ==> total == 0 && attempted == []
    ensures Listed(psOutput, listening).Ok? ==>
      var fs := Listed(psOutput, listening).value;
      && (forall h :: OfHost(attempted, h) == Tail(OfHost(fs, h)))
      && |attempted| == |fs| - |Hosts(fs)|
      && total == CountKilled(attempted, kill)
      && total <= |fs| - |Hosts(fs)|
  {
    var listed := ListForwards(psOutput, listening);
    if listed.Err? {
      return 0, [];
    }
    total, attempted := PruneGroups(listed.value, kill);
  }

  /** The kills of `PruneDuplicates` once the forwards are listed. */
  method PruneGroups(fs: seq<Forward>, kill: int -> KillOutcome) returns (total: nat, ghost attempted: seq<Forward>)
    ensures forall h :: OfHost(attempted, h) == Tail(OfHost(fs, h))
    ensures |attempted| == |fs| - |Hosts(fs)|
    ensures total == CountKilled(attempted, kill)
    ensures total <= |fs| - |Hosts(fs)|
  {
    var byTarget := Group(fs);
    ghost var order;
    total, order := VisitGroups(fs, byTarget, kill);
    attempted := Drops(fs, order);
    PruneDone(fs, order);
  }

  /** The loop over the groups, in the map's order: kill all but the first of each. */
  method VisitGroups(fs: seq<Forward>, byTarget: map<string, seq<Forward>>, kill: int -> KillOutcome)
    returns (total: nat, ghost order: seq<string>)
    requires GroupedBy(byTarget, fs)
    ensures Distinct(order) && forall x :: x in order <==> x in Hosts(fs)
    ensures total == CountKilled(Drops(fs, order), kill)
  {
    total := 0;
    order := [];
    var remaining := byTarget.Keys;
    while remaining != {}
      invariant Visited(fs, order, remaining)
      invariant total == CountKilled(Drops(fs, order), kill)
      decreases |remaining|
    {
      var h :| h in remaining;
      var items := byTarget[h];
      var count := KillDuplicates(items, kill);
      PruneStep(fs, byTarget, order, remaining, h, kill);
      total := total + count;
      order := order + [h];
      remaining := remaining - {h};
    }
  }

  /** Visiting one more group adds the kills among its tail to the count. */
  lemma PruneStep(fs: seq<Forward>, byTarget: map<string, seq<Forward>>, order: seq<string>,
                  remaining: set<string>, h: string, kill: int -> KillOutcome)
    requires GroupedBy(byTarget, fs) && Visited(fs, order, remaining) && h in remaining
    ensures Visited(fs, order + [h], remaining - {h})
    ensures CountKilled(Drops(fs, order + [h]), kill)
      == CountKilled(Drops(fs, order), kill) + CountKilled(Tail(byTarget[h]), kill)
  {
    VisitStep(fs, order, remaining, h);
    CountKilledAppend(Drops(fs, order), Tail(OfHost(fs, h)), kill);
  }

  /** The hosts of `fs` are split into those visited, once each and in `order`, and those `remaining`. */
  ghost predicate Visited(fs: seq<Forward>, order: seq<string>, remaining: set<string>) {
    && remaining <= Hosts(fs)
    && (forall x :: x in order <==> x in Hosts(fs) && x !in remaining)
    && Distinct(order)
  }

  /** Visiting one more host drops the tail of its group. */
  lemma VisitStep(fs: seq<Forward>, order: seq<string>, remaining: set<string>, h: string)
    requires Visited(fs, order, remaining) && h in remaining
    ensures Visited(fs, order + [h], remaining - {h})
    ensures Drops(fs, order + [h]) == Drops(fs, order) + Tail(OfHost(fs, h))
  {
    assert (order + [h])[..|order|] == order;
  }

  /** When every group has been visited, the dropped forwards are `PruneGroups`' contract. */
  lemma PruneDone(fs: seq<Forward>, order: seq<string>)
    requires Distinct(order)
    requires forall x :: x in order <==> x in Hosts(fs)
    ensures forall h :: OfHost(Drops(fs, order), h) == Tail(OfHost(fs, h))
    ensures |Drops(fs, order)| == |fs| - |Hosts(fs)|
  {
    forall h ensures OfHost(Drops(fs, order), h) == Tail(OfHost(fs, h)) {
      DropsOfHost(fs, order, h);
      if h !in order {
        OfHostAbsent(fs, h);
      }
    }
    DropsLength(fs, order, Hosts(fs));
    OnHostsAll(fs, Hosts(fs));
    assert |order| == |Hosts(fs)| by {
      DistinctCard(order, Hosts(fs));
    }
  }

  /** A sequence without repetitions has as many elements as the set of its elements. */
  lemma {:induction false} DistinctCard(order: seq<string>, elems: set<string>)
    requires Distinct(order)
    requires forall x :: x in order <==> x in elems
    ensures |order| == |elems|
    decreases |order|
  {
    if order != [] {
      var init, h := order[..|order| - 1], order[|order| - 1];
      assert order == init + [h];
      assert h !in init;
      DistinctCard(init, elems - {h});
    }
  }

  /** One host group of `PruneDuplicates`: keep the first forward, kill the rest. */
  method KillDuplicates(items: seq<Forward>, kill: int -> KillOutcome) returns (count: nat)
    ensures count == CountKilled(Tail(items), kill)
  {
    if |items| <= 1 {
      return 0;
    }
    count := KillEach(items[1..], kill);
  }

  // ---------------------------------------------------------------------------
  // CleanOldLogs
  // ---------------------------------------------------------------------------

  /** A log directory entry: whether it is a directory and its modification time, if readable. */
  datatype LogEntry = LogEntry(isDir: bool, modTime: Option<int>)

  /** Logs are kept for 24 hours, in seconds. */
  const Retention: int := 24 * 60 * 60

  /** An entry `CleanOldLogs` removes: a file modified strictly before the cutoff. */
  predicate Expired(e: LogEntry, cutoff: int) {
    !e.isDir && e.modTime.Some? && e.modTime.value < cutoff
  }

  /**
   * The entries that survive a clean with `cutoff`, when removing the file
   * named `n` fails exactly if `removeFails(n)`.
   */
  function Retained(entries: map<string, LogEntry>, cutoff: int, removeFails: string -> bool): (r: map<string, LogEntry>)
    ensures forall n :: n in r <==> n in entries && (!Expired(entries[n], cutoff) || removeFails(n))
    ensures forall n :: n in r ==> r[n] == entries[n]
  {
    map n | n in entries && (!Expired(entries[n], cutoff) || removeFails(n)) :: entries[n]
  }

  /** A second clean with the same cutoff and the same failing removals removes nothing. */
  lemma RetainedIdempotent(entries: map<string, LogEntry>, cutoff: int, removeFails: string -> bool)
    ensures Retained(Retained(entries, cutoff, removeFails), cutoff, removeFails) == Retained(entries, cutoff, removeFails)
  {
  }

  /** When every removal succeeds, the survivors are exactly the entries that have not expired. */
  lemma RetainedAllRemoved(entries: map<string, LogEntry>, cutoff: int, removeFails: string -> bool)
    requires forall n :: n in entries ==> !removeFails(n)
    ensures forall n :: n in Retained(entries, cutoff, removeFails) <==> n in entries && !Expired(entries[n], cutoff)
  {
  }

  /** The session log directory: file names and their entries. */
  class LogDir {
    var entries: map<string, LogEntry>

    constructor (initial: map<string, LogEntry>)
      ensures entries == initial
    {
      entries := initial;
    }

    /**
     * `CleanOldLogs`: when the directory can be read, remove every file
     * modified more than 24 hours before `now`. A removal that fails
     * (`removeFails`) leaves its file in place, since its error is ignored.
     */
    method CleanOldLogs(readable: bool, now: int, removeFails: string -> bool)
      modifies this
      ensures !readable ==> entries == old(entries)
      ensures readable ==> entries == Retained(old(entries), now - Retention, removeFails)
    {
      if !readable {
        return;
      }
      var cutoff := now - Retention;
      var names := entries.Keys;
      while names != {}
        invariant names <= old(entries).Keys
        invariant entries == map n | n in old(entries) && (n in names || !Expired(old(entries)[n], cutoff) || removeFails(n))
                                      :: old(entries)[n]
        decreases |names|
      {
        var name :| name in names;
        var e := entries[name];
        names := names - {name};
        if e.isDir {
          continue;
        }
        if e.modTime.None? {
          continue;
        }
        if e.modTime.value < cutoff && !removeFails(name) {
          entries := entries - {name};
        }
      }
    }
  }
}
