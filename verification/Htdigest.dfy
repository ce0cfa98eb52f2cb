/**
 `gst_rtsp_auth_parse_htdigest`: load a file of `user:realm:hash` lines into the table of
 digest users, all of it or nothing.
 */
module Htdigest {
  import opened Basics

  const HASH_LENGTH := 32

  // --------------------------------------------------------------- lines and fields

  /** The part of a string before the first `c`; all of it if there is none. */
  function Before(s: string, c: char): (r: string)
    ensures |r| <= |s| && r == s[..|r|] && c !in r
    ensures |r| < |s| ==> s[|r|] == c
  {
    if s == "" || s[0] == c then "" else [s[0]] + Before(s[1..], c)
  }

  function Behind(s: string, c: char): string {
    var n := |Before(s, c)|;
    if n < |s| then s[n + 1..] else ""
  }

  /** The lines of a text. A newline at the very end does not start another line. */
  function Lines(text: string): seq<string>
    decreases |text|
  {
    if text == "" then [] else [Before(text, '\n')] + Lines(Behind(text, '\n'))
  }

  /** `g_strsplit (line, ":", -1)`, where an empty line has no field at all. */
  function Fields(line: string): seq<string> {
    if line == "" then [] else Split(line)
  }

  function Split(s: string): (fs: seq<string>)
    ensures fs != []
    decreases |s|
  {
    var n := |Before(s, ':')|;
    if n == |s| then [s] else [s[..n]] + Split(s[n + 1..])
  }

  datatype Record = Record(user: string, realm: string, hash: string)

  /** What one line says, unless it is invalid. */
  function ParseLine(line: string): Option<Record> {
    var fs := Fields(line);
    if |fs| == 3 && |fs[2]| == HASH_LENGTH then Some(Record(fs[0], fs[1], fs[2])) else None
  }

  function ParseLines(lines: seq<string>): Option<seq<Record>> {
    if lines == [] then Some([])
    else
      match ParseLine(lines[0])
      case None => None
      case Some(r) =>
        match ParseLines(lines[1..])
        case None => None
        case Some(rs) => Some([r] + rs)
  }

  /** Which hash each user gets: that of the last record. */
  function Table(rs: seq<Record>): map<string, string> {
    if rs == [] then map[]
    else
      var last := rs[|rs| - 1];
      Table(rs[..|rs| - 1])[last.user := last.hash]
  }

  function PrintRecord(r: Record): string {
    r.user + (":" + (r.realm + (":" + r.hash)))
  }

  function Print(rs: seq<Record>): string {
    if rs == [] then "" else PrintRecord(rs[0]) + ("\n" + Print(rs[1..]))
  }

  /** Records that a line can hold. */
  ghost predicate Printable(r: Record) {
    && ':' !in r.user && ':' !in r.realm && ':' !in r.hash
    && '\n' !in r.user && '\n' !in r.realm && '\n' !in r.hash
    && |r.hash| == HASH_LENGTH
  }

  // --------------------------------------------------------------------- properties

  lemma {:induction false} BeforeIs(p: string, rest: string, c: char)
    requires c !in p && (rest == "" || rest[0] == c)
    ensures Before(p + rest, c) == p
  {
    if p == "" {
      assert p + rest == rest;
    } else {
      assert (p + rest)[1..] == p[1..] + rest;
      BeforeIs(p[1..], rest, c);
    }
  }

  lemma SplitOne(p: string)
    requires ':' !in p
    ensures Split(p) == [p]
  {
    BeforeIs(p, "", ':');
    assert p + "" == p;
  }

  lemma SplitCons(p: string, rest: string)
    requires ':' !in p
    ensures Split(p + (":" + rest)) == [p] + Split(rest)
  {
    var s := p + (":" + rest);
    BeforeIs(p, ":" + rest, ':');
    assert s[..|p|] == p && s[|p| + 1..] == rest;
  }

  /** A line that says a record: three fields, the last of 32 characters. */
  ghost predicate Says(line: string, r: Record) {
    line == PrintRecord(r) && ':' !in r.user && ':' !in r.realm && ':' !in r.hash && |r.hash| == HASH_LENGTH
  }

  /** A line is valid exactly if it says some record, and then that record is parsed. */
  lemma LineIsValid(line: string)
    ensures ParseLine(line).Some? <==> exists r :: Says(line, r)
    ensures ParseLine(line).Some? ==> Says(line, ParseLine(line).value)
  {
    if ParseLine(line).Some? {
      ValidLineSays(line);
    }
    if r :| Says(line, r) {
      PrintedLineParses(r);
    }
  }

  lemma SplitHead(s: string)
    ensures |Split(s)| == 1 ==> Split(s) == [s] && ':' !in s
    ensures |Split(s)| > 1 ==> ':' !in Split(s)[0] && |Split(s)[0]| < |s|
    ensures |Split(s)| > 1 ==> s == Split(s)[0] + (":" + s[|Split(s)[0]| + 1..])
    ensures |Split(s)| > 1 ==> Split(s)[1..] == Split(s[|Split(s)[0]| + 1..])
  {
  }

  lemma ValidLineSays(line: string)
    requires ParseLine(line).Some?
    ensures Says(line, ParseLine(line).value)
  {
    var fs := Split(line);
    SplitHead(line);
    var rest := line[|fs[0]| + 1..];
    SplitHead(rest);
    var last := rest[|fs[1]| + 1..];
    SplitHead(last);
    assert fs[1] == Split(rest)[0] && fs[2] == Split(last)[0];
  }

  lemma PrintedLineParses(r: Record)
    requires ':' !in r.user && ':' !in r.realm && ':' !in r.hash && |r.hash| == HASH_LENGTH
    ensures ParseLine(PrintRecord(r)) == Some(r)
  {
    SplitOne(r.hash);
    SplitCons(r.realm, r.hash);
    SplitCons(r.user, r.realm + (":" + r.hash));
    assert Split(PrintRecord(r)) == [r.user] + ([r.realm] + [r.hash]);
  }

  /** The load fails exactly if some line is invalid. */
  lemma {:induction false} FailsOnAnyBadLine(lines: seq<string>)
    ensures ParseLines(lines).None? <==> exists l :: l in lines && ParseLine(l).None?
    ensures ParseLines(lines).Some? ==>
              && |ParseLines(lines).value| == |lines|
              && forall k :: 0 <= k < |lines| ==> ParseLine(lines[k]) == Some(ParseLines(lines).value[k])
  {
    if lines != [] {
      FailsOnAnyBadLine(lines[1..]);
      assert lines == [lines[0]] + lines[1..];
      assert lines[0] in lines;
    }
  }

  /** `k` is the last record of a user. */
  ghost predicate LastOf(rs: seq<Record>, user: string, k: int) {
    0 <= k < |rs| && rs[k].user == user && forall j :: k < j < |rs| ==> rs[j].user != user
  }

  /** The table holds, for each user of the file, the hash of the last record. */
  lemma {:induction false} TableHoldsLast(rs: seq<Record>, user: string, k: int)
    requires LastOf(rs, user, k)
    ensures user in Table(rs) && Table(rs)[user] == rs[k].hash
  {
    var n := |rs| - 1;
    if k < n {
      assert LastOf(rs[..n], user, k);
      TableHoldsLast(rs[..n], user, k);
    }
  }

  lemma {:induction false} TableHasOnlyUsers(rs: seq<Record>, user: string)
    ensures user in Table(rs) <==> exists k :: 0 <= k < |rs| && rs[k].user == user
  {
    if rs != [] {
      var n := |rs| - 1;
      TableHasOnlyUsers(rs[..n], user);
      if k :| 0 <= k < n && rs[..n][k].user == user {
        assert rs[k].user == user;
      }
      if k :| 0 <= k < n && rs[k].user == user {
        assert rs[..n][k].user == user;
      }
    }
  }

  lemma LinesCons(line: string, rest: string)
    requires '\n' !in line
    ensures Lines(line + ("\n" + rest)) == [line] + Lines(rest)
  {
    var s := line + ("\n" + rest);
    BeforeIs(line, "\n" + rest, '\n');
    assert s[|line| + 1..] == rest;
  }

  /** Every line, each with a newline behind it. */
  function Terminated(lines: seq<string>): string {
    if lines == [] then "" else lines[0] + ("\n" + Terminated(lines[1..]))
  }

  /** No line holds a newline, and put together they are the text again; also the last one,
      whether or not a newline ends it. */
  lemma {:induction false} LinesReadBack(text: string)
    ensures forall l :: l in Lines(text) ==> '\n' !in l
    ensures Terminated(Lines(text)) == WithNewline(text)
    decreases |text|
  {
    if text != "" {
      LinesReadBack(Behind(text, '\n'));
      TerminatedCons(Before(text, '\n'), Lines(Behind(text, '\n')));
      FirstLineAndRest(text);
    }
  }

  /** The text, with a newline at its end if it is not empty. */
  function WithNewline(text: string): string {
    if text == "" || text[|text| - 1] == '\n' then text else text + "\n"
  }

  lemma TerminatedCons(line: string, lines: seq<string>)
    ensures Terminated([line] + lines) == line + ("\n" + Terminated(lines))
  {
    assert ([line] + lines)[1..] == lines;
  }

  lemma FirstLineAndRest(text: string)
    requires text != ""
    ensures WithNewline(text) == Before(text, '\n') + ("\n" + WithNewline(Behind(text, '\n')))
  {
    var line, rest := Before(text, '\n'), Behind(text, '\n');
    if |line| == |text| {
      assert line == text && text[|text| - 1] in text;
    } else {
      assert text == line + ("\n" + rest);
      if rest == "" {
        assert text[|text| - 1] == '\n';
      } else {
        assert text[|text| - 1] == rest[|rest| - 1];
      }
    }
  }

  /** Loading a printed list of records recovers it. */
  lemma {:induction false} ParseUndoesPrint(rs: seq<Record>)
    requires forall r :: r in rs ==> Printable(r)
    ensures ParseLines(Lines(Print(rs))) == Some(rs)
  {
    if rs != [] {
      var r := rs[0];
      assert r in rs;
      assert '\n' !in PrintRecord(r);
      LinesCons(PrintRecord(r), Print(rs[1..]));
      PrintedLineParses(r);
      ParseUndoesPrint(rs[1..]);
      var lines := Lines(Print(rs[1..]));
      assert ([PrintRecord(r)] + lines)[1..] == lines;
      assert rs == [r] + rs[1..];
    }
  }

  // ------------------------------------------------------------------------ the code

  type Token = nat

  /** An entry of the digest table: a password, or the md5 of a loaded line. */
  datatype Entry = Password(pass: string, token: Token) | Md5(hash: string, token: Token)

  /** The entries that a file adds. */
  ghost function Loaded(rs: seq<Record>, token: Token): map<string, Entry> {
    var t := Table(rs);
    map u | u in t :: Md5(t[u], token)
  }

  /** A file adds an entry for each of its users and for nobody else: the hash of the last line
      of the user, as an md5, with the token of the call. */
  lemma LoadedHoldsLast(rs: seq<Record>, token: Token, user: string, k: int)
    ensures user in Loaded(rs, token) <==> exists j :: 0 <= j < |rs| && rs[j].user == user
    ensures LastOf(rs, user, k) ==> user in Loaded(rs, token) && Loaded(rs, token)[user] == Md5(rs[k].hash, token)
  {
    TableHasOnlyUsers(rs, user);
    if LastOf(rs, user, k) {
      TableHoldsLast(rs, user, k);
    }
  }

  lemma LoadedSnoc(rs: seq<Record>, r: Record, token: Token)
    ensures Loaded(rs + [r], token) == Loaded(rs, token)[r.user := Md5(r.hash, token)]
  {
    assert (rs + [r])[..|rs|] == rs;
  }

  class Auth {
    var digest: map<string, Entry>

    constructor ()
      ensures digest == map[]
    {
      digest := map[];
    }

    /** `gst_rtsp_auth_add_digest`. */
    method AddDigest(user: string, pass: string, token: Token)
      modifies this
      ensures digest == old(digest)[user := Password(pass, token)]
    {
      digest := digest[user := Password(pass, token)];
    }

    lemma FirstAt(s: string, c: char, n: nat)
      requires n <= |s| && (n < |s| ==> s[n] == c) && forall k :: 0 <= k < n ==> s[k] != c
      ensures |Before(s, c)| == n
    {
      assert s == s[..n] + s[n..];
      BeforeIs(s[..n], s[n..], c);
    }

    /** One line: the record it says, and where the next line starts, -1 for none. */
    method ReadLine(contents: array<char>, line: nat, len: nat) returns (record: Option<Record>, next: int)
      requires line < len < contents.Length && contents[len] == '\0'
      requires forall i :: line <= i < len ==> contents[i] != '\0'
      modifies contents
      ensures record == ParseLine(Before(old(contents[line..len]), '\n'))
      ensures contents[len] == '\0'
      ensures next == -1 || line < next <= len
      ensures next != -1 ==> forall i :: next <= i < len ==> contents[i] != '\0'
      ensures next != -1 ==> contents[next..len] == Behind(old(contents[line..len]), '\n')
      ensures next == -1 ==> Behind(old(contents[line..len]), '\n') == ""
    {
      var eol := FindEol(contents, line, len);
      var s := CutLine(contents, line, eol, len);
      var strv := Fields(s);
      next := if eol != -1 then eol + 1 else -1;
      if |strv| != 3 {
        return None, next;
      }
      if |strv[2]| != HASH_LENGTH {
        return None, next;
      }
      record := Some(Record(strv[0], strv[1], strv[2]));
    }

    /** The records of a text, by its first line. */
    lemma FirstLine(text: string, done: seq<Record>)
      requires text != ""
      ensures Prepend(done, ParseLines(Lines(text)))
           == match ParseLine(Before(text, '\n'))
              case None => None
              case Some(r) => Prepend(done + [r], ParseLines(Lines(Behind(text, '\n'))))
    {
      var line, rest := Before(text, '\n'), Lines(Behind(text, '\n'));
      assert Lines(text) == [line] + rest;
      assert ([line] + rest)[1..] == rest;
      if ParseLine(line).Some? {
        PrependSnoc(done, ParseLine(line).value, ParseLines(rest));
      }
    }

    /**
     The loop over the lines: it cuts the buffer into strings by overwriting each newline
     with a NUL. None if a line is invalid.
     */
    method ParseContents(contents: array<char>, len: nat, token: Token)
      returns (entries: Option<map<string, Entry>>, ghost records: seq<Record>)
      requires HoldsCString(contents, len)
      modifies contents
      ensures ParseLines(Lines(old(contents[..len]))) == if entries.None? then None else Some(records)
      ensures entries.Some? ==> entries.value == Loaded(records, token)
    {
      var newEntries: map<string, Entry> := map[];
      records := [];
      ghost var all := ParseLines(Lines(contents[..len]));
      NothingDone(all);
      ghost var rest := contents[..len];
      assert contents[0..len] == rest;
      var line := 0;
      while line != -1 && contents[line] != '\0'
        invariant line == -1 ==> rest == ""
        invariant line != -1 ==>
                    && 0 <= line <= len && contents[len] == '\0' && contents[line..len] == rest
                    && forall i :: line <= i < len ==> contents[i] != '\0'
        invariant newEntries == Loaded(records, token)
        invariant all == Prepend(records, ParseLines(Lines(rest)))
        decreases if line == -1 then 0 else 1 + len - line
      {
        FirstLine(rest, records);
        var record, next := ReadLine(contents, line, len);
        if record.None? {
          return None, records;
        }
        var r := record.value;
        LoadedSnoc(records, r, token);
        newEntries := newEntries[r.user := Md5(r.hash, token)];
        records, rest := records + [r], Behind(rest, '\n');
        line := next;
      }
      NothingLeft(records);
      entries := Some(newEntries);
    }

    lemma NothingDone(all: Option<seq<Record>>)
      ensures Prepend([], all) == all
    {
      if all.Some? {
        assert [] + all.value == all.value;
      }
    }

    lemma NothingLeft(records: seq<Record>)
      ensures Prepend(records, ParseLines(Lines(""))) == Some(records)
    {
      assert records + [] == records;
    }

    ghost function Prepend(rs: seq<Record>, more: Option<seq<Record>>): Option<seq<Record>> {
      if more.None? then None else Some(rs + more.value)
    }

    lemma PrependSnoc(rs: seq<Record>, r: Record, more: Option<seq<Record>>)
      ensures Prepend(rs, Prepend([r], more)) == Prepend(rs + [r], more)
    {
      if more.Some? {
        assert rs + ([r] + more.value) == (rs + [r]) + more.value;
      }
    }

    /** `strchr (line, '\n')`: the index, or -1. */
    method FindEol(contents: array<char>, line: nat, len: nat) returns (eol: int)
      requires line < len < contents.Length && contents[len] == '\0'
      requires forall i :: line <= i < len ==> contents[i] != '\0'
      ensures eol == -1 || line <= eol < len
      ensures line + |Before(contents[line..len], '\n')| == if eol == -1 then len else eol
    {
      eol := line;
      while contents[eol] != '\0'
        invariant line <= eol <= len && forall k :: line <= k < eol ==> contents[k] != '\n'
        decreases len - eol
      {
        if contents[eol] == '\n' {
          FirstAt(contents[line..len], '\n', eol - line);
          return;
        }
        eol := eol + 1;
      }
      FirstAt(contents[line..len], '\n', len - line);
      eol := -1;
    }

    /** End the line at `eol`, and take it as a string. */
    method CutLine(contents: array<char>, line: nat, eol: int, len: nat) returns (s: string)
      requires line < len < contents.Length && contents[len] == '\0'
      requires forall i :: line <= i < len ==> contents[i] != '\0'
      requires eol == -1 || line <= eol < len
      requires line + |Before(contents[line..len], '\n')| == if eol == -1 then len else eol
      modifies contents
      ensures s == Before(old(contents[line..len]), '\n')
      ensures forall i :: 0 <= i < contents.Length && i != eol ==> contents[i] == old(contents[i])
      ensures eol != -1 ==> contents[eol + 1..len] == Behind(old(contents[line..len]), '\n')
      ensures eol == -1 ==> Behind(old(contents[line..len]), '\n') == ""
    {
      ghost var text := contents[line..len];
      ghost var first := Before(text, '\n');
      assert first == text[..|first|];
      if eol != -1 {
        contents[eol] := '\0';
      }
      s := "";
      var i := line;
      while contents[i] != '\0'
        invariant line <= i <= line + |first|
        invariant s == first[..i - line]
        decreases len - i
      {
        assert contents[i] == text[i - line] == first[i - line];
        s := s + [contents[i]];
        i := i + 1;
      }
      assert i == line + |first|;
      if eol != -1 {
        assert contents[eol + 1..len] == text[|first| + 1..];
      }
    }

    /** `gst_rtsp_auth_parse_htdigest`; None stands for a file that cannot be read. */
    method ParseHtdigest(file: Option<(array<char>, nat)>, token: Token) returns (ok: bool)
      requires file.Some? ==> HoldsCString(file.value.0, file.value.1)
      modifies this, if file.Some? then {file.value.0} else {}
      ensures file.None? ==> !ok && digest == old(digest)
      ensures file.Some? ==>
                match ParseLines(Lines(old(file.value.0[..file.value.1])))
                case None => !ok && digest == old(digest)
                case Some(rs) => ok && digest == old(digest) + Loaded(rs, token)
    {
      if file.None? {
        return false;
      }
      ghost var records;
      var entries;
      entries, records := ParseContents(file.value.0, file.value.1, token);
      if entries.None? {
        return false;
      }
      digest := digest + entries.value;
      ok := true;
    }
  }
}
