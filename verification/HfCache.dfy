/** Repository ids and the names of their cache folders. */
module HfCache {
  import opened Wrappers
  import Strings

  const PREFIX := "models--"

  // ---------- which ids are valid ----------

  predicate IsBase(c: char) { 'A' <= c <= 'Z' || 'a' <= c <= 'z' || '0' <= c <= '9' || c == '_' }

  predicate IsSpecial(c: char) { c == '/' || c == '.' || c == '-' }

  function Slashes(s: string): (n: nat)
  {
    if s == "" then 0 else Slashes(s[..|s| - 1]) + if s[|s| - 1] == '/' then 1 else 0
  }

  /** The character at `i` is a base character, or a special one between two base characters. */
  predicate GoodAt(id: string, i: nat)
    requires i < |id|
  {
    IsBase(id[i]) || (IsSpecial(id[i]) && 0 < i < |id| - 1 && IsBase(id[i - 1]) && IsBase(id[i + 1]))
  }

  /** A repository id: special characters stand between base characters, and one of them is a slash. */
  predicate IsRepoId(id: string)
  {
    1 <= |id| <= 256 && Slashes(id) == 1 && forall i :: 0 <= i < |id| ==> GoodAt(id, i)
  }

  /** The loop over the id has not refused the first `n` characters. */
  predicate Passed(id: string, n: nat, special: bool)
  {
    n <= |id| && (special <==> n == 0 || IsSpecial(id[n - 1])) &&
    (forall i :: 0 <= i < n ==> IsBase(id[i]) || IsSpecial(id[i])) &&
    forall i :: 0 <= i < n && IsSpecial(id[i]) ==> i > 0 && IsBase(id[i - 1])
  }

  /** `is_valid_repo_id`. */
  method IsValidRepoId(id: string) returns (r: bool)
    ensures r <==> IsRepoId(id)
  {
    if id == "" || |id| > 256 { return false; }
    var slash, special := 0, true;
    for i := 0 to |id|
      invariant Passed(id, i, special) && slash == Slashes(id[..i])
    {
      var c := id[i];
      assert id[..i + 1][..i] == id[..i];
      if IsBase(c) {
        special := false;
      } else if IsSpecial(c) {
        if special {
          assert !GoodAt(id, i);
          return false;
        }
        slash := slash + if c == '/' then 1 else 0;
        special := true;
      } else {
        assert !GoodAt(id, i);
        return false;
      }
    }
    assert id[..|id|] == id;
    PassedAll(id, special);
    r := !special && slash == 1;
  }

  lemma {:induction false} PassedAll(id: string, special: bool)
    requires id != "" && Passed(id, |id|, special)
    ensures !special <==> forall i :: 0 <= i < |id| ==> GoodAt(id, i)
  {
    if special {
      assert !GoodAt(id, |id| - 1);
    } else {
      forall i | 0 <= i < |id|
        ensures GoodAt(id, i)
      {
        if IsSpecial(id[i]) && i < |id| - 1 { assert !IsSpecial(id[i + 1]); }
      }
    }
  }

  // ---------- folder names ----------

  function FolderOf(id: string): (folder: string) { Strings.Replaced(PREFIX + id, "/", "--") }

  function RepoOf(folder: string): (id: string)
  {
    if PREFIX <= folder then Strings.Replaced(folder[|PREFIX|..], "--", "/") else ""
  }

  /** `repo_to_folder_name`. */
  method RepoToFolderName(id: string) returns (folder: string)
    ensures folder == FolderOf(id)
  {
    folder := PREFIX + id;
    folder := Strings.StringReplaceAll(folder, "/", "--");
  }

  /** `folder_name_to_repo`. */
  method FolderNameToRepo(folder: string) returns (id: string)
    ensures id == RepoOf(folder)
  {
    if !(PREFIX <= folder) { return ""; }
    id := folder[|PREFIX|..];
    id := Strings.StringReplaceAll(id, "--", "/");
  }

  /** Slashes written as two dashes. */
  function Encoded(s: string): (r: string)
  {
    if s == "" then "" else (if s[0] == '/' then "--" else [s[0]]) + Encoded(s[1..])
  }

  /** Pairs of dashes, from the left, read as slashes. */
  function Decoded(s: string): (r: string)
  {
    if s == "" then ""
    else if |s| >= 2 && s[0] == '-' && s[1] == '-' then "/" + Decoded(s[2..])
    else [s[0]] + Decoded(s[1..])
  }

  lemma {:induction false} ReplacedEncodes(s: string)
    ensures Strings.Replaced(s, "/", "--") == Encoded(s)
  {
    hide Strings.Replaced;
    Strings.ReplacedFront(s, "/", "--");
    if s != "" {
      assert s[0..1] == [s[0]];
      ReplacedEncodes(s[1..]);
    }
  }

  lemma {:induction false} ReplacedDecodes(s: string)
    ensures Strings.Replaced(s, "--", "/") == Decoded(s)
    decreases |s|
  {
    hide Strings.Replaced;
    Strings.ReplacedFront(s, "--", "/");
    if s != "" {
      if |s| >= 2 {
        assert s[0..2] == [s[0], s[1]];
        ReplacedDecodes(s[2..]);
      }
      ReplacedDecodes(s[1..]);
    }
  }

  lemma {:induction false} EncodedAppend(a: string, b: string)
    ensures Encoded(a + b) == Encoded(a) + Encoded(b)
  {
    if a == "" {
      assert a + b == b;
    } else {
      assert (a + b)[1..] == a[1..] + b;
      EncodedAppend(a[1..], b);
      var head := if a[0] == '/' then "--" else [a[0]];
      assert head + (Encoded(a[1..]) + Encoded(b)) == head + Encoded(a[1..]) + Encoded(b);
    }
  }

  predicate NoSlash(s: string) { forall i :: 0 <= i < |s| ==> s[i] != '/' }

  lemma {:induction false} EncodedPlain(s: string)
    ensures NoSlash(Encoded(s)) && (Encoded(s) == s <==> NoSlash(s))
  {
    if s != "" {
      EncodedPlain(s[1..]);
      assert NoSlash(s) <==> s[0] != '/' && NoSlash(s[1..]);
    }
  }

  lemma {:induction false} FolderParts(id: string)
    ensures FolderOf(id) == PREFIX + Encoded(id)
  {
    ReplacedEncodes(PREFIX + id);
    EncodedAppend(PREFIX, id);
    EncodedPlain(PREFIX);
  }

  /** No dash comes right before a dash or a slash. */
  predicate Unambiguous(id: string)
  {
    forall i :: 0 <= i < |id| - 1 && id[i] == '-' ==> id[i + 1] != '-' && id[i + 1] != '/'
  }

  lemma {:induction false} DecodedEncoded(s: string)
    ensures Decoded(Encoded(s)) == s <==> Unambiguous(s)
  {
    if s != "" {
      var rest := s[1..];
      DecodedEncoded(rest);
      EncodedHead(rest);
      var e := Encoded(s);
      if s[0] == '/' {
        assert e[2..] == Encoded(rest);
        SlashUnambiguous(s);
      } else {
        assert e[1..] == Encoded(rest);
        CharUnambiguous(s);
      }
    }
  }

  /** An encoded text starts with a dash just when the text starts with a dash or a slash. */
  lemma {:induction false} EncodedHead(s: string)
    ensures Encoded(s) != "" <==> s != ""
    ensures s != "" ==> (Encoded(s)[0] == '-' <==> s[0] == '-' || s[0] == '/')
  {
  }

  lemma {:induction false} SlashUnambiguous(s: string)
    requires s != "" && s[0] == '/'
    ensures Unambiguous(s) <==> Unambiguous(s[1..])
  {
    UnambiguousTail(s);
  }

  lemma {:induction false} CharUnambiguous(s: string)
    requires s != ""
    ensures Unambiguous(s) <==> Unambiguous(s[1..]) && !(s[0] == '-' && |s| > 1 && (s[1] == '-' || s[1] == '/'))
  {
    UnambiguousTail(s);
  }

  lemma {:induction false} UnambiguousTail(s: string)
    requires s != ""
    ensures Unambiguous(s) <==> Unambiguous(s[1..]) && (|s| > 1 && s[0] == '-' ==> s[1] != '-' && s[1] != '/')
  {
    var rest := s[1..];
    if Unambiguous(s) {
      forall i | 0 <= i < |rest| - 1 && rest[i] == '-'
        ensures rest[i + 1] != '-' && rest[i + 1] != '/'
      {
        assert s[i + 1] == rest[i] && s[i + 1 + 1] == rest[i + 1];
      }
    }
    if Unambiguous(rest) && (|s| > 1 && s[0] == '-' ==> s[1] != '-' && s[1] != '/') {
      forall i | 0 <= i < |s| - 1 && s[i] == '-'
        ensures s[i + 1] != '-' && s[i + 1] != '/'
      {
        if i > 0 { assert rest[i - 1] == s[i] && rest[i] == s[i + 1]; }
      }
    }
  }

  /** An id is recovered from its folder name if and only if it is unambiguous. */
  lemma {:induction false} RepoRoundTrip(id: string)
    ensures RepoOf(FolderOf(id)) == id <==> Unambiguous(id)
  {
    hide FolderOf, Encoded, Decoded, Strings.Replaced;
    FolderParts(id);
    assert FolderOf(id)[|PREFIX|..] == Encoded(id);
    ReplacedDecodes(Encoded(id));
    DecodedEncoded(id);
  }

  /** Two ids that share a folder: the first one comes back as the second. */
  lemma {:induction false} SharedFolder()
    ensures FolderOf("a-/b") == FolderOf("a/-b") == "models--a---b" && RepoOf("models--a---b") == "a/-b"
  {
    hide FolderOf, RepoOf, Encoded;
    var id, other := "a-/b", "a/-b";
    FolderParts(id);
    FolderParts(other);
    EncodedPieces();
    assert PREFIX + "a---b" == "models--a---b";
    RepoRoundTrip(other);
    assert Unambiguous(other);
  }

  lemma {:induction false} EncodedPieces()
    ensures Encoded("a-/b") == Encoded("a/-b") == "a---b"
  {
    hide Encoded;
    assert Encoded("/") == "--" by { EncodedSlash(); }
    EncodedPlain("a");
    EncodedPlain("-");
    EncodedPlain("b");
    EncodedAppend("a", "-");
    EncodedAppend("a-", "/");
    EncodedAppend("a-/", "b");
    EncodedAppend("a", "/");
    EncodedAppend("a/", "-");
    EncodedAppend("a/-", "b");
    assert "a" + "-" == "a-" && "a-" + "/" == "a-/" && "a-/" + "b" == "a-/b";
    assert "a" + "/" == "a/" && "a/" + "-" == "a/-" && "a/-" + "b" == "a/-b";
  }

  lemma {:induction false} EncodedSlash()
    ensures Encoded("/") == "--"
  {
    assert "/"[1..] == "" && Encoded("") == "";
  }

  /** So every valid id is. */
  lemma {:induction false} ValidRoundTrip(id: string)
    requires IsRepoId(id)
    ensures RepoOf(FolderOf(id)) == id
  {
    hide FolderOf, RepoOf;
    RepoRoundTrip(id);
    forall i | 0 <= i < |id| - 1 && id[i] == '-'
      ensures id[i + 1] != '-' && id[i + 1] != '/'
    {
      assert GoodAt(id, i);
    }
  }

  lemma {:induction false} EncodedDecoded(s: string)
    ensures Encoded(Decoded(s)) == s <==> NoSlash(s)
    decreases |s|
  {
    EncodedPlain(Decoded(s));
    if s != "" {
      var d := Decoded(s);
      if |s| >= 2 && s[0] == '-' && s[1] == '-' {
        EncodedDecoded(s[2..]);
        assert d[1..] == Decoded(s[2..]);
        assert s == "--" + s[2..];
        assert NoSlash(s) <==> NoSlash(s[2..]);
      } else {
        EncodedDecoded(s[1..]);
        assert d[1..] == Decoded(s[1..]);
        assert s == [s[0]] + s[1..];
        assert NoSlash(s) <==> s[0] != '/' && NoSlash(s[1..]);
      }
    }
  }

  /** A folder name is recovered from its id if and only if it has the prefix and no slash. */
  lemma {:induction false} FolderRoundTrip(folder: string)
    ensures FolderOf(RepoOf(folder)) == folder <==> PREFIX <= folder && NoSlash(folder)
  {
    hide Encoded, Decoded, Strings.Replaced, NoSlash, FolderOf;
    FolderParts(RepoOf(folder));
    if PREFIX <= folder {
      var rest := folder[|PREFIX|..];
      ReplacedDecodes(rest);
      EncodedDecoded(rest);
      assert folder == PREFIX + rest;
      PrefixNoSlash(rest);
    }
  }

  lemma {:induction false} PrefixNoSlash(rest: string)
    ensures NoSlash(PREFIX + rest) <==> NoSlash(rest)
  {
    var s := PREFIX + rest;
    assert forall i :: 0 <= i < |rest| ==> rest[i] == s[|PREFIX| + i];
  }
}
