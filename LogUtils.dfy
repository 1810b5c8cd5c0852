/**
 * The playground's logging helpers: the symbol of each log level, the layout
 * of the line each level prints around a timestamp, and the file-name
 * extraction `sourceFileName(filePath:)`. The timestamp is an opaque string.
 */
module LogUtils {
  import opened Wrappers

  /** The log levels. */
  datatype LogEvent = Err | Info | Warn | Xmpl

  /** The symbol each level prefixes to its lines (the enum's raw value). */
  function RawValue(ev: LogEvent): (s: string)
    ensures |s| >= 1 && s[0] != '\n'
  {
    match ev
    case Err => "\U{1F525}"
    case Info => "\U{2139}\U{FE0F}"
    case Warn => "\U{26A0}\U{FE0F}"
    case Xmpl => "\U{1F4E2}"
  }

  /** The enum's synthesized `init?(rawValue:)`. */
  function FromRawValue(s: string): (ev: Option<LogEvent>)
    ensures ev.Some? ==> RawValue(ev.value) == s
  {
    if s == RawValue(Err) then Some(Err)
    else if s == RawValue(Info) then Some(Info)
    else if s == RawValue(Warn) then Some(Warn)
    else if s == RawValue(Xmpl) then Some(Xmpl)
    else None
  }

  predicate IsPrefix(p: string, s: string) {
    |p| <= |s| && s[..|p|] == p
  }

  /** The four symbols are pairwise distinct, and none is a prefix of another. */
  lemma SymbolsPrefixFree(a: LogEvent, b: LogEvent)
    ensures IsPrefix(RawValue(a), RawValue(b)) ==> a == b
    ensures FromRawValue(RawValue(a)) == Some(a)
  {
  }

  /** The line shared by all levels: symbol, the time in brackets, then the message. */
  function Layout(ev: LogEvent, time: string, text: string): string {
    RawValue(ev) + Stamp(time, text)
  }

  /** What follows the symbol: ` [time] ` and the message. */
  function Stamp(time: string, text: string): string {
    " [" + time + "] " + text
  }

  /** `LogUtils.err`: the line it prints. */
  function ErrMessage(time: string, text: string): (line: string)
    ensures |line| == |RawValue(Err)| + |time| + |text| + 4
    ensures IsPrefix(RawValue(Err) + " [" + time + "] ", line)
    ensures line[|line| - |text|..] == text
  {
    Layout(Err, time, text)
  }

  /** `LogUtils.info`: the line it prints. */
  function InfoMessage(time: string, text: string): (line: string)
    ensures |line| == |RawValue(Info)| + |time| + |text| + 4
    ensures IsPrefix(RawValue(Info) + " [" + time + "] ", line)
    ensures line[|line| - |text|..] == text
  {
    Layout(Info, time, text)
  }

  /** `LogUtils.warn`: the line it prints. */
  function WarnMessage(time: string, text: string): (line: string)
    ensures |line| == |RawValue(Warn)| + |time| + |text| + 4
    ensures IsPrefix(RawValue(Warn) + " [" + time + "] ", line)
    ensures line[|line| - |text|..] == text
  {
    Layout(Warn, time, text)
  }

  const BannerTop: string := "\n\n\n"
  /** `n` copies of `c`. */
  function Repeat(c: char, n: nat): (s: string)
    ensures |s| == n && forall i :: 0 <= i < n ==> s[i] == c
  {
    seq(n, _ => c)
  }

  /** The rule under an example banner: fifty `=` characters. */
  const BannerRule: string := Repeat('=', 50)
  const BannerBottom: string := "\n" + BannerRule

  /** `LogUtils.xmpl`: the layout, framed by blank lines above and a rule below. */
  function XmplMessage(time: string, text: string): (line: string)
    ensures |line| == |BannerTop| + |Layout(Xmpl, time, text)| + 1 + 50
    ensures line[..3] == "\n\n\n"
    ensures line[3..|line| - 51] == Layout(Xmpl, time, text)
    ensures line[|line| - 51] == '\n'
    ensures forall i :: |line| - 50 <= i < |line| ==> line[i] == '='
  {
    Framed(Layout(Xmpl, time, text))
  }

  /** A line with the example banner around it. */
  function Framed(line: string): string {
    BannerTop + line + BannerBottom
  }

  /** The line inside an example banner, if `s` has one around it. */
  function Unframe(s: string): Option<string> {
    if |s| >= |BannerTop| + |BannerBottom| && s[..|BannerTop|] == BannerTop && s[|s| - |BannerBottom|..] == BannerBottom
    then Some(s[|BannerTop|..|s| - |BannerBottom|])
    else None
  }

  /** The line printed at each level. */
  function Message(ev: LogEvent, time: string, text: string): string {
    match ev
    case Err => ErrMessage(time, text)
    case Info => InfoMessage(time, text)
    case Warn => WarnMessage(time, text)
    case Xmpl => XmplMessage(time, text)
  }

  /** The first index of `c` in `s`, if any. */
  function IndexOf(s: string, c: char): (r: Option<nat>)
    ensures r.None? <==> c !in s
    ensures r.Some? ==> r.value < |s| && s[r.value] == c && c !in s[..r.value]
    decreases |s|
  {
    if |s| == 0 then None
    else if s[0] == c then Some(0)
    else match IndexOf(s[1..], c)
      case None => None
      case Some(i) =>
        assert s[..i + 1] == [s[0]] + s[1..][..i];
        Some(i + 1)
  }

  /** A line read back into its level, time and message. */
  datatype Entry = Entry(level: LogEvent, time: string, text: string)

  /** The level whose symbol starts `s`, if any. */
  function LeadingEvent(s: string): (ev: Option<LogEvent>)
    ensures ev.Some? ==> IsPrefix(RawValue(ev.value), s)
  {
    if |s| == 0 then None
    else match EventWithLead(s[0])
      case None => None
      case Some(ev) => if IsPrefix(RawValue(ev), s) then Some(ev) else None
  }

  /** The level whose symbol begins with `c`: the symbols' first characters differ. */
  function EventWithLead(c: char): (ev: Option<LogEvent>)
    ensures ev.Some? ==> RawValue(ev.value)[0] == c
  {
    if c == '\U{1F525}' then Some(Err)
    else if c == '\U{2139}' then Some(Info)
    else if c == '\U{26A0}' then Some(Warn)
    else if c == '\U{1F4E2}' then Some(Xmpl)
    else None
  }

  /** Reads a `Layout` line; the time runs up to the first `]`. */
  function ParseLayout(s: string): Option<Entry> {
    match LeadingEvent(s)
    case None => None
    case Some(ev) => ParseStamped(ev, s[|RawValue(ev)|..])
  }

  /** Reads the ` [time] text` that follows a level's symbol. */
  function ParseStamped(ev: LogEvent, rest: string): Option<Entry> {
    if |rest| < 2 || rest[..2] != " [" then None
    else match IndexOf(rest[2..], ']')
      case None => None
      case Some(i) =>
        if i + 3 < |rest| && rest[i + 3] == ' ' then Some(Entry(ev, rest[2..i + 2], rest[i + 4..]))
        else None
  }

  /** Reads any level's line back. */
  function ParseMessage(s: string): Option<Entry> {
    match Unframe(s)
    case Some(line) =>
      (match ParseLayout(line)
       case Some(e) => if e.level == Xmpl then Some(e) else None
       case None => None)
    case None =>
      (match ParseLayout(s)
       case Some(e) => if e.level != Xmpl then Some(e) else None
       case None => None)
  }

  /** A line that starts with a level's symbol is attributed to that level. */
  lemma LeadingEventOf(ev: LogEvent, tail: string)
    ensures LeadingEvent(RawValue(ev) + tail) == Some(ev)
  {
    var s := RawValue(ev) + tail;
    assert s[0] == RawValue(ev)[0];
    assert s[..|RawValue(ev)|] == RawValue(ev);
  }

  /** With no `]` in the time, the first `]` is the one that closes it. */
  lemma IndexOfClosingBracket(time: string, tail: string)
    requires ']' !in time
    ensures IndexOf(time + "]" + tail, ']') == Some(|time|)
  {
    var s := time + "]" + tail;
    assert s[|time|] == ']';
  }

  /** ` [time] text` is read back, provided the time has no `]`. */
  lemma StampedRoundTrip(ev: LogEvent, time: string, text: string)
    requires ']' !in time
    ensures ParseStamped(ev, Stamp(time, text)) == Some(Entry(ev, time, text))
  {
    var rest := Stamp(time, text);
    assert rest[..2] == " [";
    assert rest[2..] == time + "]" + (" " + text);
    IndexOfClosingBracket(time, " " + text);
    assert rest[2..|time| + 2] == time;
    assert rest[|time| + 4..] == text;
  }

  /** A `Layout` line is read back, provided the time has no `]`. */
  lemma LayoutRoundTrip(ev: LogEvent, time: string, text: string)
    requires ']' !in time
    ensures ParseLayout(Layout(ev, time, text)) == Some(Entry(ev, time, text))
  {
    var stamped := Stamp(time, text);
    var s := Layout(ev, time, text);
    LeadingEventOf(ev, stamped);
    assert s[|RawValue(ev)|..] == stamped;
    StampedRoundTrip(ev, time, text);
  }

  /** Whatever `ParseStamped` accepts is ` [time] text` for the parts it returns. */
  lemma StampedSound(ev: LogEvent, rest: string)
    ensures ParseStamped(ev, rest).Some? ==>
      var e := ParseStamped(ev, rest).value;
      e.level == ev && ']' !in e.time && Stamp(e.time, e.text) == rest
  {
    if ParseStamped(ev, rest).Some? {
      var i := IndexOf(rest[2..], ']').value;
      var time, text := rest[2..i + 2], rest[i + 4..];
      assert rest[2..][..i] == time;
      assert rest[..2] == " [";
      assert rest[i + 2..i + 4] == "] ";
      assert rest == rest[..2] + time + rest[i + 2..i + 4] + text;
    }
  }

  /** A line attributed to a level starts with that level's symbol. */
  lemma LeadingEventSound(s: string, ev: LogEvent)
    requires LeadingEvent(s) == Some(ev)
    ensures s == RawValue(ev) + s[|RawValue(ev)|..]
  {
    assert s[..|RawValue(ev)|] == RawValue(ev);
  }

  /** Whatever `ParseLayout` accepts is the `Layout` line of the entry it returns. */
  lemma LayoutSound(s: string)
    ensures ParseLayout(s).Some? ==>
      var e := ParseLayout(s).value;
      ']' !in e.time && Layout(e.level, e.time, e.text) == s
  {
    if ParseLayout(s).Some? {
      var ev := LeadingEvent(s).value;
      var rest := s[|RawValue(ev)|..];
      assert ParseLayout(s) == ParseStamped(ev, rest);
      StampedSound(ev, rest);
      LeadingEventSound(s, ev);
    }
  }

  /** The banner is removed again by `Unframe`. */
  lemma UnframeFramed(line: string)
    ensures Unframe(Framed(line)) == Some(line)
  {
    var s := Framed(line);
    assert s[..|BannerTop|] == BannerTop;
    assert s[|s| - |BannerBottom|..] == BannerBottom;
    assert s[|BannerTop|..|s| - |BannerBottom|] == line;
  }

  /** Whatever `Unframe` accepts is the banner around the line it returns. */
  lemma UnframeSound(s: string)
    ensures Unframe(s).Some? ==> Framed(Unframe(s).value) == s
  {
    if Unframe(s).Some? {
      assert s == s[..|BannerTop|] + s[|BannerTop|..|s| - |BannerBottom|] + s[|s| - |BannerBottom|..];
    }
  }

  /** The lines of err, info and warn carry no banner: they start with their symbol. */
  lemma LayoutIsNotFramed(ev: LogEvent, time: string, text: string)
    ensures Unframe(Layout(ev, time, text)) == None
  {
    var s := Layout(ev, time, text);
    assert s[0] == RawValue(ev)[0] != '\n';
    assert BannerTop[0] == '\n';
  }

  /** err, info and warn print the bare layout; xmpl prints it inside the banner. */
  lemma MessageShape(ev: LogEvent, time: string, text: string)
    ensures Message(ev, time, text) == if ev == Xmpl then Framed(Layout(ev, time, text)) else Layout(ev, time, text)
  {
  }

  /**
   * Every level's line can be read back into its level, time and message,
   * provided the timestamp has no `]` (the time format never produces one).
   */
  lemma MessageRoundTrip(ev: LogEvent, time: string, text: string)
    requires ']' !in time
    ensures ParseMessage(Message(ev, time, text)) == Some(Entry(ev, time, text))
  {
    MessageShape(ev, time, text);
    LayoutRoundTrip(ev, time, text);
    if ev == Xmpl {
      UnframeFramed(Layout(ev, time, text));
    } else {
      LayoutIsNotFramed(ev, time, text);
    }
  }

  /** Whatever `ParseMessage` accepts is exactly the line of the entry it returns. */
  lemma ParseMessageSound(s: string)
    ensures ParseMessage(s).Some? ==>
      var e := ParseMessage(s).value;
      ']' !in e.time && Message(e.level, e.time, e.text) == s
  {
    if ParseMessage(s).Some? {
      var e := ParseMessage(s).value;
      MessageShape(e.level, e.time, e.text);
      UnframeSound(s);
      match Unframe(s)
      case Some(line) => LayoutSound(line);
      case None => LayoutSound(s);
    }
  }

  /** The first character of a level's line: a newline for the banner, else the symbol's first. */
  lemma FirstCharacter(ev: LogEvent, time: string, text: string)
    ensures Message(ev, time, text)[0] == if ev == Xmpl then '\n' else RawValue(ev)[0]
  {
    MessageShape(ev, time, text);
    if ev != Xmpl {
      assert Layout(ev, time, text)[0] == RawValue(ev)[0];
    }
  }

  /** Lines of different levels always differ, whatever their times and messages. */
  lemma LevelIsVisible(a: LogEvent, b: LogEvent, timeA: string, timeB: string, textA: string, textB: string)
    ensures Message(a, timeA, textA) == Message(b, timeB, textB) ==> a == b
  {
    FirstCharacter(a, timeA, textA);
    FirstCharacter(b, timeB, textB);
  }

  /** Foundation's `components(separatedBy:)` for a one-character separator. */
  function Components(s: string, separator: char): (parts: seq<string>)
    ensures |parts| >= 1
    ensures forall i :: 0 <= i < |parts| ==> separator !in parts[i]
    ensures Join(parts, separator) == s
    decreases |s|
  {
    match IndexOf(s, separator)
    case None => [s]
    case Some(i) =>
      var parts := [s[..i]] + Components(s[i + 1..], separator);
      assert parts[1..] == Components(s[i + 1..], separator);
      assert s == s[..i] + [separator] + s[i + 1..];
      parts
  }

  /** `joined(separator:)`: the inverse of `Components`. */
  function Join(parts: seq<string>, separator: char): string
    decreases |parts|
  {
    if |parts| == 0 then ""
    else if |parts| == 1 then parts[0]
    else parts[0] + [separator] + Join(parts[1..], separator)
  }

  /** The first part starts the joined text and ends at a separator or at the end. */
  lemma JoinFirst(parts: seq<string>, separator: char)
    requires |parts| >= 1
    ensures var s := Join(parts, separator);
      IsPrefix(parts[0], s) && (|s| == |parts[0]| || s[|parts[0]|] == separator)
  {
  }

  /** The last part ends the joined text and starts at the beginning or after a separator. */
  lemma {:induction false} JoinLast(parts: seq<string>, separator: char)
    requires |parts| >= 1
    ensures var s, last := Join(parts, separator), parts[|parts| - 1];
      |last| <= |s| && s[|s| - |last|..] == last && (|s| == |last| || s[|s| - |last| - 1] == separator)
    decreases |parts|
  {
    if |parts| > 1 {
      JoinLast(parts[1..], separator);
      var s, rest := Join(parts, separator), Join(parts[1..], separator);
      assert s == (parts[0] + [separator]) + rest;
      assert s[|s| - |rest|..] == rest;
    }
  }

  /** `components(separatedBy: separator).last`: the text after the last separator. */
  function LastComponent(s: string, separator: char): (last: string)
    ensures separator !in last
    ensures |last| <= |s| && s == s[..|s| - |last|] + last
    ensures var before := s[..|s| - |last|]; before == "" || before[|before| - 1] == separator
  {
    var parts := Components(s, separator);
    JoinLast(parts, separator);
    parts[|parts| - 1]
  }

  /** `components(separatedBy: separator).first`: the text before the first separator. */
  function FirstComponent(s: string, separator: char): (first: string)
    ensures separator !in first
    ensures |first| <= |s| && s == first + s[|first|..]
    ensures var after := s[|first|..]; after == "" || after[0] == separator
  {
    var parts := Components(s, separator);
    JoinFirst(parts, separator);
    parts[0]
  }

  /**
   * `sourceFileName(filePath:)`: the last `/`-separated component, cut at its
   * first `.`. Splitting always gives at least one part, so both `last` and
   * `first` exist and the guard's `""` is never returned on its account.
   */
  function SourceFileName(filePath: string): (name: string)
    ensures '/' !in name && '.' !in name
  {
    var fileExt := LastComponent(filePath, '/');
    FirstComponent(fileExt, '.')
  }

  /**
   * `name` is the file name of `path` with its extension removed: `path` is a
   * directory part (empty or ending in `/`), then `name`, then an extension
   * part (empty or starting with `.`) with no `/` in it.
   */
  predicate IsFileNameSplit(path: string, dir: string, name: string, ext: string) {
    && path == dir + name + ext
    && (dir == "" || dir[|dir| - 1] == '/')
    && '/' !in name && '.' !in name
    && '/' !in ext && (ext == "" || ext[0] == '.')
  }

  ghost predicate IsFileNameOf(path: string, name: string) {
    exists dir, ext :: IsFileNameSplit(path, dir, name, ext)
  }

  /** `sourceFileName`'s result, with what precedes and follows it, splits the path. */
  lemma SourceFileNameSplits(path: string) returns (dir: string, ext: string)
    ensures IsFileNameSplit(path, dir, SourceFileName(path), ext)
  {
    var fileExt := LastComponent(path, '/');
    var name := FirstComponent(fileExt, '.');
    dir := path[..|path| - |fileExt|];
    ext := fileExt[|name|..];
    assert '/' !in ext by {
      NotInSuffix(name, ext, '/');
    }
    assert path == dir + fileExt;
    assert path == dir + name + ext by {
      Assoc(dir, name, ext);
    }
  }

  /** A character absent from a text is absent from each of its suffixes. */
  lemma NotInSuffix(a: string, b: string, c: char)
    requires c !in a + b
    ensures c !in b
  {
    assert forall i :: 0 <= i < |b| ==> b[i] == (a + b)[|a| + i];
  }

  /** Concatenation regroups freely. */
  lemma Assoc(a: string, b: string, c: string)
    ensures a + b + c == a + (b + c)
  {
  }

  /** The length of a path's directory part: everything up to its last `/`. */
  function DirLength(path: string): (n: nat)
    ensures n <= |path|
    decreases |path|
  {
    if |path| == 0 then 0
    else if path[|path| - 1] == '/' then |path|
    else DirLength(path[..|path| - 1])
  }

  /** A directory part followed by text without `/` ends at the last `/`. */
  lemma {:induction false} DirLengthOfSplit(dir: string, rest: string)
    requires dir == "" || dir[|dir| - 1] == '/'
    requires '/' !in rest
    ensures DirLength(dir + rest) == |dir|
    decreases |rest|
  {
    if rest == [] {
      assert dir + rest == dir;
    } else {
      var shorter := rest[..|rest| - 1];
      assert (dir + rest)[..|dir + rest| - 1] == dir + shorter;
      DirLengthOfSplit(dir, shorter);
    }
  }

  /** In a name without `.` followed by an extension, the first `.` starts the extension. */
  lemma {:induction false} IndexOfExtension(name: string, ext: string)
    requires '.' !in name
    requires ext == "" || ext[0] == '.'
    ensures IndexOf(name + ext, '.') == if ext == "" then None else Some(|name|)
    decreases |name|
  {
    if name == [] {
      assert name + ext == ext;
    } else {
      assert (name + ext)[1..] == name[1..] + ext;
      IndexOfExtension(name[1..], ext);
    }
  }

  /** Two ways of splitting a path into directory, name and extension agree. */
  lemma FileNameSplitUnique(path: string, dir1: string, name1: string, ext1: string, dir2: string, name2: string, ext2: string)
    requires IsFileNameSplit(path, dir1, name1, ext1)
    requires IsFileNameSplit(path, dir2, name2, ext2)
    ensures dir1 == dir2 && name1 == name2 && ext1 == ext2
  {
    assert path == dir1 + (name1 + ext1) == dir2 + (name2 + ext2);
    DirLengthOfSplit(dir1, name1 + ext1);
    DirLengthOfSplit(dir2, name2 + ext2);
    assert dir1 == path[..|dir1|] == dir2;
    var t := path[|dir1|..];
    assert t == name1 + ext1 == name2 + ext2;
    IndexOfExtension(name1, ext1);
    IndexOfExtension(name2, ext2);
    assert |name1| == |name2|;
    assert name1 == t[..|name1|] == name2;
  }

  /** Any split of a path into directory, name and extension yields that name. */
  lemma SourceFileNameOfSplit(path: string, dir: string, name: string, ext: string)
    requires IsFileNameSplit(path, dir, name, ext)
    ensures SourceFileName(path) == name
  {
    var dir0, ext0 := SourceFileNameSplits(path);
    FileNameSplitUnique(path, dir, name, ext, dir0, SourceFileName(path), ext0);
  }

  /** `sourceFileName` returns exactly the extension-less file name of the path. */
  lemma SourceFileNameCharacterized(path: string, name: string)
    ensures SourceFileName(path) == name <==> IsFileNameOf(path, name)
  {
    var dir0, ext0 := SourceFileNameSplits(path);
    if IsFileNameOf(path, name) {
      var dir, ext :| IsFileNameSplit(path, dir, name, ext);
      SourceFileNameOfSplit(path, dir, name, ext);
    }
  }

  /** A bare name without directory or extension comes back unchanged; so `""` gives `""`. */
  lemma PlainNameUnchanged(path: string)
    requires '/' !in path && '.' !in path
    ensures SourceFileName(path) == path
  {
    assert path == "" + path + "";
    SourceFileNameOfSplit(path, "", path, "");
  }

  /** Applying `sourceFileName` to its own result changes nothing. */
  lemma SourceFileNameIdempotent(path: string)
    ensures SourceFileName(SourceFileName(path)) == SourceFileName(path)
  {
    PlainNameUnchanged(SourceFileName(path));
  }

  /**
   * The extension is removed, although the doc comment promises the name
   * with its extension; only the text before the first `.` is kept.
   */
  lemma SourceFileNameStripsExtension(path: string)
    requires path == "Sources/LogUtils.swift"
    ensures SourceFileName(path) == "LogUtils"
  {
    assert path == "Sources/" + "LogUtils" + ".swift";
    SourceFileNameOfSplit(path, "Sources/", "LogUtils", ".swift");
  }

  /** A name that starts with `.` leaves nothing. */
  lemma SourceFileNameOfHiddenFile(path: string)
    requires path == "/home/.profile"
    ensures SourceFileName(path) == ""
  {
    assert path == "/home/" + "" + ".profile";
    SourceFileNameOfSplit(path, "/home/", "", ".profile");
  }
}
