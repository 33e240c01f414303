/**
 * The session-id extraction of `killScreen` (watch.js): find the first line of the
 * `screen -ls` listing that mentions the capture session, take the text before its first
 * dot, trim it, and quit that session only when what is left is non-empty.
 */
module Screen {
  import opened Wrappers
  import opened JsString

  /** The name under which `createScreen` starts the capture session. */
  const SESSION_NAME: string := "arduino-logs"

  /** No line before index `k` mentions `pat`. */
  predicate NoMatchBefore(lines: seq<string>, pat: string, k: int) {
    forall j :: 0 <= j < k && j < |lines| ==> !Contains(lines[j], pat)
  }

  /** `lines.find(l => l.match(pat))`: the first line that mentions `pat`, if any. */
  function Find(lines: seq<string>, pat: string): (r: Option<string>)
    ensures r.None? <==> NoMatchBefore(lines, pat, |lines|)
    ensures r.Some? ==> exists k :: (0 <= k < |lines| && lines[k] == r.value
      && Contains(lines[k], pat) && NoMatchBefore(lines, pat, k))
    decreases |lines|
  {
    if |lines| == 0 then None
    else if Contains(lines[0], pat) then
      assert NoMatchBefore(lines, pat, 0);
      Some(lines[0])
    else
      var r := Find(lines[1..], pat);
      assert forall j :: 1 <= j < |lines| ==> lines[1..][j - 1] == lines[j];
      if r.Some? then
        var k :| 0 <= k < |lines| - 1 && lines[1..][k] == r.value
          && Contains(lines[1..][k], pat) && NoMatchBefore(lines[1..], pat, k);
        assert lines[k + 1] == r.value && NoMatchBefore(lines, pat, k + 1);
        r
      else
        r
  }

  /** `line.split('.')[0].trim()`: the candidate session id carried by a listing line. */
  function SessionId(line: string): (id: string)
    ensures '.' !in id
    ensures id == [] || (!IsWhite(id[0]) && !IsWhite(id[|id| - 1]))
  {
    var parts := Split(line, '.');
    var before := parts[0];
    assert '.' !in before;
    var id := Trim(before);
    SliceKeepsOut(before, |before| - |TrimStart(before)|, |id|, '.');
    id
  }

  /** A character absent from `s` is absent from every slice of it. */
  lemma SliceKeepsOut(s: string, i: nat, n: nat, c: char)
    requires i + n <= |s| && c !in s
    ensures c !in s[i..i + n]
  {
  }

  /**
   * The id `killScreen` passes to `screen -XS <id> quit`, or `None` when no quit is issued.
   * `listing` is what `screen -ls` printed, or `None` when that command failed.
   */
  function QuitTarget(listing: Option<string>): (id: Option<string>)
    ensures listing.None? ==> id.None?
    ensures listing.Some? && NoMatchBefore(Split(listing.value, '\n'), SESSION_NAME, |Split(listing.value, '\n')|)
      ==> id.None?
    ensures id.Some? ==> id.value != [] && '.' !in id.value
    ensures id.Some? ==> !IsWhite(id.value[0]) && !IsWhite(id.value[|id.value| - 1])
  {
    match listing
    case None => None
    case Some(text) =>
      match Find(Split(text, '\n'), SESSION_NAME)
      case None => None
      case Some(line) =>
        var number := SessionId(line);
        if number != [] then Some(number) else None
  }

  /**
   * When line `k` is the first line of the listing that mentions the session, the quit
   * target is exactly that line's id, provided the id is non-empty.
   */
  lemma QuitTargetOfFirstMatch(text: string, k: nat)
    requires k < |Split(text, '\n')|
    requires Contains(Split(text, '\n')[k], SESSION_NAME)
    requires NoMatchBefore(Split(text, '\n'), SESSION_NAME, k)
    ensures var id := SessionId(Split(text, '\n')[k]);
      QuitTarget(Some(text)) == if id != [] then Some(id) else None
  {
    var lines := Split(text, '\n');
    var found := Find(lines, SESSION_NAME);
    var k' :| 0 <= k' < |lines| && lines[k'] == found.value
      && Contains(lines[k'], SESSION_NAME) && NoMatchBefore(lines, SESSION_NAME, k');
  }

  /**
   * The converse of the contract of `QuitTarget`: a listing whose first entry naming the
   * session reads `<white space><id>.<rest>` (as in `\t4711.arduino-logs\t(Detached)`)
   * makes `killScreen` quit exactly `id`.
   */
  lemma QuitsListedSession(before: seq<string>, pad: string, id: string, rest: string, after: seq<string>)
    requires Unseparated(before, '\n') && Unseparated(after, '\n')
    requires NoMatchBefore(before, SESSION_NAME, |before|)
    requires AllWhite(pad) && id != [] && '.' !in id && !IsWhite(id[0]) && !IsWhite(id[|id| - 1])
    requires '\n' !in pad + id + "." + rest && Contains(pad + id + "." + rest, SESSION_NAME)
    ensures QuitTarget(Some(Join(before + [pad + id + "." + rest] + after, '\n'))) == Some(id)
  {
    var entry := pad + id + "." + rest;
    var lines := before + [entry] + after;
    SplitAroundEntry(before, entry, after);
    assert lines[|before|] == entry;
    assert NoMatchBefore(lines, SESSION_NAME, |before|) by {
      forall j | 0 <= j < |before| ensures !Contains(lines[j], SESSION_NAME) {
        assert lines[j] == before[j];
      }
    }
    QuitTargetOfFirstMatch(Join(lines, '\n'), |before|);
    EntrySessionId(pad, id, rest);
  }

  /** Splitting a joined listing into lines recovers the lines. */
  lemma SplitAroundEntry(before: seq<string>, entry: string, after: seq<string>)
    requires Unseparated(before, '\n') && Unseparated(after, '\n')
    requires '\n' !in entry
    ensures Split(Join(before + [entry] + after, '\n'), '\n') == before + [entry] + after
  {
    var lines := before + [entry] + after;
    forall k | 0 <= k < |lines| ensures '\n' !in lines[k] {
      if k < |before| {
        assert lines[k] == before[k];
      } else if k == |before| {
        assert lines[k] == entry;
      } else {
        assert lines[k] == after[k - |before| - 1];
      }
    }
    assert Unseparated(lines, '\n');
    SplitJoin(lines, '\n');
  }

  /** The id carried by an entry `<white space><id>.<rest>` is `id`. */
  lemma EntrySessionId(pad: string, id: string, rest: string)
    requires AllWhite(pad)
    requires id != [] && '.' !in id && !IsWhite(id[0]) && !IsWhite(id[|id| - 1])
    ensures SessionId(pad + id + "." + rest) == id
  {
    assert '.' !in pad;
    assert pad + id + "." + rest == (pad + id) + ("." + rest);
    SplitAfterPlainPrefix(pad + id, "." + rest, '.');
    assert ("." + rest)[1..] == rest;
    assert Split("." + rest, '.')[0] == "";
    assert Split(pad + id + "." + rest, '.')[0] == pad + id;
    TrimStartSkipsWhite(pad, id);
    assert TrimEnd(id) == id;
  }
}
