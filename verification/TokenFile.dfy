/** The refresh token file: internal/tesla/tokenfile.go over a directory of files,
    with every step able to fail. */
module TokenFile {
  import opened Prelude
  import opened Text

  /** A file: what readers see, what a power loss leaves, and its permission bits. */
  datatype File = File(contents: string, durable: string, mode: nat)

  type Files = map<string, File>

  const OWNER_ONLY := 0x180

  datatype Step = MakeDirectory | CreateTemp | Chmod | WriteText | Sync | Close | Rename

  /** How one call fares: the step that fails, if any; how much of the text a failing
      write got down; the name chosen for the temporary file; and whether the final
      clean-up works. */
  datatype Script = Script(failing: Option<Step>, written: nat, temp: string, removed: bool)

  function Saved(token: string): File {
    File(TrimSpace(token), TrimSpace(token), OWNER_ONLY)
  }

  /** The target is as before or holds the complete new token, durably. */
  ghost predicate Intact(before: Files, now: Files, path: string, token: string) {
    && (path in now ==> now[path] == Saved(token) || (path in before && now[path] == before[path]))
    && (path in before ==> path in now)
  }

  ghost predicate AllIntact(before: Files, trace: seq<Files>, path: string, token: string) {
    forall i :: 0 <= i < |trace| ==> Intact(before, trace[i], path, token)
  }

  class Directory {
    var files: Files

    /** Everything from the temporary file's creation to the rename. */
    method ReplaceThrough(path: string, token: string, s: Script) returns (ok: bool, ghost trace: seq<Files>)
      requires s.temp in files && files[s.temp] == File("", "", OWNER_ONLY) && s.temp != path
      modifies this
      ensures ok <==> s.failing.None? || s.failing.value.MakeDirectory? || s.failing.value.CreateTemp?
      ensures ok ==> files == (old(files) - {s.temp})[path := Saved(token)]
      ensures !ok ==> files - {s.temp} == old(files) - {s.temp}
      ensures AllIntact(old(files), trace, path, token)
    {
      hide TrimSpace;
      trace := [];
      if s.failing == Some(Chmod) {
        return false, trace;
      }
      files := files[s.temp := files[s.temp].(mode := OWNER_ONLY)];
      trace := trace + [files];
      var text := TrimSpace(token);
      var written := if s.failing == Some(WriteText) then text[..Min(s.written, |text|)] else text;
      files := files[s.temp := files[s.temp].(contents := written)];
      trace := trace + [files];
      if s.failing == Some(WriteText) || s.failing == Some(Sync) {
        return false, trace;
      }
      files := files[s.temp := files[s.temp].(durable := files[s.temp].contents)];
      trace := trace + [files];
      if s.failing == Some(Close) || s.failing == Some(Rename) {
        return false, trace;
      }
      files := (files - {s.temp})[path := files[s.temp]];
      trace := trace + [files];
      ok := true;
    }

    /** The file is replaced as a whole or not at all: on success only the target
        differs, on failure nothing does, and at no moment in between, nor after a
        power loss at any of them, is the target anything but old or complete. */
    method WriteRefreshTokenFile(path: string, token: string, s: Script) returns (ok: bool, ghost trace: seq<Files>)
      requires s.temp !in files && s.temp != path
      modifies this
      ensures ok <==> TrimSpace(path) != "" && s.failing == None
      ensures ok ==> files == old(files)[path := Saved(token)]
      ensures !ok ==> files - {s.temp} == old(files) && (s.removed ==> files == old(files))
      ensures AllIntact(old(files), trace, path, token)
      ensures Intact(old(files), files, path, token)
    {
      trace := [];
      if TrimSpace(path) == "" || s.failing == Some(MakeDirectory) || s.failing == Some(CreateTemp) {
        assert files - {s.temp} == files;
        return false, trace;
      }
      files := files[s.temp := File("", "", OWNER_ONLY)];
      assert files - {s.temp} == old(files);
      label Created:
      ghost var inner;
      ok, inner := ReplaceThrough(path, token, s);
      assert AllIntact(old(files), inner, path, token) by {
        assert AllIntact(old@Created(files), inner, path, token);
      }
      trace := [old@Created(files)] + inner;
      if s.removed {
        files := files - {s.temp};
        trace := trace + [files];
      }
    }
  }

  // ----- Resolving -----

  datatype Source = FromFile | FromEnvironment | Nowhere

  datatype Resolved = Resolved(token: string, source: Source, unreadable: bool)

  /** What reading the token file yields. */
  datatype Read = Contents(text: string) | Missing | Unreadable

  function ReadOf(files: Files, path: string): Read {
    if path in files then Contents(files[path].contents) else Missing
  }

  function ReadAfterPowerLoss(files: Files, path: string): Read {
    if path in files then Contents(files[path].durable) else Missing
  }

  function ResolveRefreshToken(path: string, read: Read, configured: string): Resolved {
    if TrimSpace(path) != "" && read.Contents? && TrimSpace(read.text) != "" then
      Resolved(TrimSpace(read.text), FromFile, false)
    else
      var unreadable := TrimSpace(path) != "" && read.Unreadable?;
      if TrimSpace(configured) != "" then Resolved(TrimSpace(configured), FromEnvironment, unreadable)
      else Resolved("", Nowhere, unreadable)
  }

  /** `t` is `s` without the spaces around it. */
  ghost predicate IsTrimOf(t: string, s: string) {
    Trimmed(t) && exists left, right :: AllSpaces(left) && AllSpaces(right) && s == left + t + right
  }

  predicate AllSpaces(s: string) {
    forall c :: c in s ==> IsSpace(c)
  }

  lemma {:induction false} LeftSpaces(s: string) returns (left: string)
    ensures AllSpaces(left) && s == left + TrimLeft(s)
  {
    if s != [] && IsSpace(s[0]) {
      left := LeftSpaces(s[1..]);
      left := [s[0]] + left;
    } else {
      left := [];
    }
  }

  lemma {:induction false} RightSpaces(s: string) returns (right: string)
    ensures AllSpaces(right) && s == TrimRight(s) + right
  {
    if s != [] && IsSpace(s[|s| - 1]) {
      right := RightSpaces(s[..|s| - 1]);
      right := right + [s[|s| - 1]];
    } else {
      right := [];
    }
  }

  lemma TrimmedOf(s: string)
    ensures IsTrimOf(TrimSpace(s), s)
  {
    hide TrimLeft, TrimRight, AllSpaces, Trimmed;
    TrimTrims(s);
    var left := LeftSpaces(s);
    var right := RightSpaces(TrimLeft(s));
    assert s == left + TrimSpace(s) + right;
  }

  /** A saved file holds the token without the spaces around it, durably, and only its
      owner may read or write it. */
  lemma SavedContents(token: string)
    ensures IsTrimOf(Saved(token).contents, token) && Saved(token).durable == Saved(token).contents
    ensures Saved(token).mode == 6 * 8 * 8
  {
    TrimmedOf(token);
  }

  /** The token is trimmed, missing only when there is none anywhere, and comes from the
      environment only when the file has none to offer: it is then the configured one, as
      it is the file's otherwise. An unreadable file is reported whatever else is found. */
  lemma Precedence(path: string, read: Read, configured: string)
    ensures var r := ResolveRefreshToken(path, read, configured);
            var inFile := TrimSpace(path) != "" && read.Contents? && TrimSpace(read.text) != "";
            && Trimmed(r.token)
            && (r.source == FromFile <==> inFile)
            && (r.token == "" <==> r.source == Nowhere)
            && (r.source == Nowhere <==> !inFile && TrimSpace(configured) == "")
            && (r.unreadable <==> TrimSpace(path) != "" && read.Unreadable?)
            && (r.source == FromFile ==> IsTrimOf(r.token, read.text))
            && (r.source == FromEnvironment ==> IsTrimOf(r.token, configured))
  {
    hide IsTrimOf, TrimSpace, Trimmed;
    if read.Contents? {
      TrimTrims(read.text);
      TrimmedOf(read.text);
    }
    TrimTrims(configured);
    TrimmedOf(configured);
    TrimTrims("");
    NothingToTrim();
  }

  lemma NothingToTrim()
    ensures Trimmed("")
  {
  }

  /** A saved token is what the next start resolves to, whatever the environment says. */
  lemma SavedIsResolved(files: Files, path: string, token: string, configured: string)
    requires TrimSpace(path) != "" && TrimSpace(token) != ""
    ensures ResolveRefreshToken(path, ReadOf(files[path := Saved(token)], path), configured)
         == Resolved(TrimSpace(token), FromFile, false)
  {
    TrimTrims(token);
    TrimTrims(TrimSpace(token));
  }

  /** Stopped at any point, even by a power loss, a save leaves the next start either
      the old resolution or the new token. */
  lemma InterruptedResolves(before: Files, trace: seq<Files>, i: nat, path: string, token: string, configured: string)
    requires AllIntact(before, trace, path, token) && i < |trace|
    requires TrimSpace(path) != "" && TrimSpace(token) != ""
    ensures var r := ResolveRefreshToken(path, ReadOf(trace[i], path), configured);
            || r == ResolveRefreshToken(path, ReadOf(before, path), configured)
            || r == Resolved(TrimSpace(token), FromFile, false)
    ensures var r := ResolveRefreshToken(path, ReadAfterPowerLoss(trace[i], path), configured);
            || r == ResolveRefreshToken(path, ReadAfterPowerLoss(before, path), configured)
            || r == Resolved(TrimSpace(token), FromFile, false)
  {
    hide TrimSpace;
    var now := trace[i];
    assert Intact(before, now, path, token);
    TrimTrims(token);
    TrimTrims(TrimSpace(token));
  }
}
