/** A file of log lines, read without knowing what wrote it. */
module FileLines {
  import opened Wrappers
  import opened Swar
  import opened Text
  import opened LogFormat
  import opened LineLaws
  import opened LossLines

  /** The position of the first newline, or the length of a text that has none. */
  function FirstNewline(text: bytes): (k: nat)
    ensures k <= |text|
    ensures k < |text| ==> text[k] == LF
  {
    if text == [] || text[0] == LF then 0 else 1 + FirstNewline(text[1..])
  }

  /** The lines of a file, each with its newline; the last one may have none. */
  function LinesOf(file: bytes): seq<bytes>
    decreases |file|
  {
    var k := FirstNewline(file);
    if file == [] then []
    else if k == |file| then [file]
    else [file[..k + 1]] + LinesOf(file[k + 1..])
  }

  /** The losses the lines report for the thread of this name. */
  function LossesUnder(lines: seq<bytes>, name: bytes): nat {
    if lines == [] then 0
    else LossesUnder(lines[..|lines| - 1], name) + LossesOn(lines[|lines| - 1], name)
  }

  function LossesOn(line: bytes, name: bytes): nat {
    match LossIn(line)
    case None => 0
    case Some(loss) => if loss.thread == name then loss.count else 0
  }

  lemma MoreLosses(lines: seq<bytes>, line: bytes, name: bytes)
    ensures LossesUnder(lines + [line], name) == LossesUnder(lines, name) + LossesOn(line, name)
  {
    assert (lines + [line])[..|lines|] == lines;
  }

  ghost predicate Whole(file: bytes) {
    file == [] || file[|file| - 1] == LF
  }

  lemma {:induction false} FirstNewlineIs(text: bytes, k: nat)
    requires k < |text| && text[k] == LF && LF !in text[..k]
    ensures FirstNewline(text) == k
  {
    if k > 0 {
      assert text[0] == text[..k][0];
      assert text[1..][..k - 1] == text[..k][1..];
      FirstNewlineIs(text[1..], k - 1);
    }
  }

  lemma {:induction false} NoneBeforeFirst(text: bytes)
    ensures LF !in text[..FirstNewline(text)]
    ensures FirstNewline(text) == |text| ==> LF !in text
  {
    if text != [] && text[0] != LF {
      NoneBeforeFirst(text[1..]);
      var k := FirstNewline(text);
      assert text[..k] == [text[0]] + text[1..][..k - 1];
      assert text == [text[0]] + text[1..];
    }
  }

  lemma LineAlone(line: bytes)
    requires OneLine(line)
    ensures LinesOf(line) == [line]
  {
    var k := |line| - 1;
    FirstNewlineIs(line, k);
    assert line[..k + 1] == line && line[k + 1..] == [];
  }

  /** The first line of whole lines is the same with more behind them. */
  lemma FirstLineStays(file: bytes, more: bytes) returns (first: bytes, rest: bytes)
    requires file != [] && Whole(file)
    ensures |rest| < |file| && Whole(rest)
    ensures LinesOf(file) == [first] + LinesOf(rest) && LinesOf(file + more) == [first] + LinesOf(rest + more)
  {
    var k := FirstNewline(file);
    NoneBeforeFirst(file);
    assert (file + more)[..k] == file[..k];
    FirstNewlineIs(file + more, k);
    first, rest := file[..k + 1], file[k + 1..];
    assert (file + more)[k + 1..] == rest + more && (file + more)[..k + 1] == first;
  }

  lemma WholeBehind(file: bytes, line: bytes)
    requires OneLine(line)
    ensures Whole(file + line)
  {
  }

  /** A line behind whole lines is one line more. */
  lemma {:induction false} LineBehind(file: bytes, line: bytes)
    requires Whole(file) && OneLine(line)
    ensures LinesOf(file + line) == LinesOf(file) + [line] && Whole(file + line)
    decreases |file|
  {
    WholeBehind(file, line);
    if file == [] {
      assert file + line == line;
      LineAlone(line);
    } else {
      var first, rest := FirstLineStays(file, line);
      LineBehind(rest, line);
      OneInFront(first, LinesOf(rest), line);
    }
  }

  lemma OneInFront(first: bytes, lines: seq<bytes>, last: bytes)
    ensures [first] + (lines + [last]) == [first] + lines + [last]
  {
  }
}
