/** Which names the file API accepts and where they lead. */
module Paths {
  import opened Text
  import opened Results

  type Path = seq<string>

  const FORBIDDEN_PARTS := {".auth", ".hermes", "keys", "key", ".env", "config.yaml", "config.yml"}

  /** `not requested.strip()`; names made of other white space have no `/` and fail below. */
  predicate IsBlank(s: string) {
    forall c | c in s :: c in {' ', '\t', '\n', '\r', '\U{000B}', '\U{000C}'}
  }

  predicate StartsWithDot(part: string) {
    part != "" && part[0] == '.'
  }

  /** Joining `parts` to `base` and resolving `.` and `..`; there are no symbolic links. */
  function Resolve(base: Path, parts: Path): Path
    decreases |parts|
  {
    if parts == [] then base
    else if parts[0] == "" || parts[0] == "." then Resolve(base, parts[1..])
    else if parts[0] == ".." then Resolve(if base == [] then base else base[..|base| - 1], parts[1..])
    else Resolve(base + [parts[0]], parts[1..])
  }

  /** `safe_path`: the resolved path, `None` where the code raises `VaultError`. */
  function SafePath(root: Path, requested: string): Option<Path> {
    var normalized := ReplaceChar(requested, '\\', '/');
    if IsBlank(requested) || (normalized != "" && normalized[0] == '/') || '\0' in normalized then None
    else
      var split := Split(normalized, '/');
      var parts := if split[0] == "collab" then split[1..] else split;
      if |parts| < 2 || exists p | p in parts :: p in {"", ".", ".."} then None
      else if exists p | p in parts :: Lower(p) in FORBIDDEN_PARTS || StartsWithDot(p) then None
      else
        var candidate := Resolve(root, parts);
        if root <= candidate then Some(candidate) else None
  }

  /** The names that are kept from the file API. */
  predicate Forbidden(name: string) {
    name in [".auth", ".hermes", "keys", "key", ".env", "config.yaml", "config.yml"]
  }

  lemma ForbiddenNames(name: string)
    ensures Forbidden(name) <==> name in FORBIDDEN_PARTS
  {
  }

  /** A component that is only a name: not empty, not hidden, not forbidden, in no slash style. */
  predicate Plain(p: string) {
    && p != "" && p[0] != '.' && '/' !in p && '\\' !in p && '\0' !in p
    && !Forbidden(Lower(p))
  }

  lemma {:induction false} ResolvePlain(base: Path, parts: Path)
    requires forall p | p in parts :: p != "" && p != "." && p != ".."
    ensures Resolve(base, parts) == base + parts
    decreases |parts|
  {
    if parts != [] {
      assert parts[0] in parts && forall p | p in parts[1..] :: p in parts;
      ResolvePlain(base + [parts[0]], parts[1..]);
      assert base + [parts[0]] + parts[1..] == base + parts;
    }
  }

  lemma SplitKeepsOut(s: string, sep: char, c: char)
    requires c !in s
    ensures forall p | p in Split(s, sep) :: c !in p
  {
    if s != [] {
      SplitKeepsOut(s[1..], sep, c);
      var rest := Split(s[1..], sep);
      if s[0] != sep {
        assert rest[0] in rest;
        forall p | p in Split(s, sep) ensures c !in p {
          assert p == [s[0]] + rest[0] || p in rest[1..];
        }
      }
    }
  }

  /** Every accepted name leads strictly below the root, through at least two plain components:
      never to the ledger or the state file, never into `.auth`. */
  lemma AcceptedIsPlain(root: Path, requested: string)
    requires SafePath(root, requested).Some?
    ensures var path := SafePath(root, requested).value;
            && |path| >= |root| + 2 && path[..|root|] == root
            && (forall p | p in path[|root|..] :: Plain(p))
            && path[|root|] != ".auth" && path != root + ["ledger.jsonl"] && path != root + ["state.json"]
  {
    var normalized := ReplaceChar(requested, '\\', '/');
    assert '\\' !in normalized;
    var split := Split(normalized, '/');
    var parts := if split[0] == "collab" then split[1..] else split;
    SplitKeepsOut(normalized, '/', '\\');
    SplitKeepsOut(normalized, '/', '\0');
    ResolvePlain(root, parts);
    var path := root + parts;
    assert path[|root|..] == parts && path[..|root|] == root;
    forall p | p in parts ensures Plain(p) {
      assert p in split;
      ForbiddenNames(Lower(p));
    }
    assert Plain(parts[0]) && !Plain(".auth");
  }

  /** Both slash styles name the same file. */
  lemma SlashStylesAgree(root: Path, requested: string)
    ensures SafePath(root, ReplaceChar(requested, '\\', '/')) == SafePath(root, requested)
  {
    var normalized := ReplaceChar(requested, '\\', '/');
    assert ReplaceChar(normalized, '\\', '/') == normalized;
    if IsBlank(requested) {
      assert '\\' !in requested;
      assert normalized == requested;
    } else {
      var c :| c in requested && c !in {' ', '\t', '\n', '\r', '\U{000B}', '\U{000C}'};
      var i :| 0 <= i < |requested| && requested[i] == c;
      assert normalized[i] in normalized;
    }
  }

  lemma {:induction false} JoinAvoids(parts: Path, c: char)
    requires c != '/' && forall p | p in parts :: c !in p
    ensures c !in Join(parts, '/')
  {
    if |parts| > 1 {
      assert forall p | p in parts[1..] :: p in parts;
      assert parts[0] in parts;
      JoinAvoids(parts[1..], c);
    }
  }

  lemma JoinFacts(parts: Path)
    requires |parts| >= 2 && forall p | p in parts :: Plain(p)
    ensures var name := Join(parts, '/');
            && name != "" && name[0] != '/' && '/' in name && '\\' !in name && '\0' !in name
  {
    JoinAvoids(parts, '\\');
    JoinAvoids(parts, '\0');
    assert Plain(parts[0]);
    var name := Join(parts, '/');
    assert name == parts[0] + ['/'] + Join(parts[1..], '/');
    assert name[0] == parts[0][0] && name[|parts[0]|] == '/';
  }

  /** The name `write_file` returns leads back to the same file exactly when its first component
      is not `collab`. */
  lemma ReturnedNameResolves(root: Path, requested: string)
    requires SafePath(root, requested).Some?
    ensures var path := SafePath(root, requested).value;
            |path| > |root| &&
            (SafePath(root, Join(path[|root|..], '/')) == Some(path) <==> path[|root|] != "collab")
  {
    AcceptedIsPlain(root, requested);
    var path := SafePath(root, requested).value;
    var rel := path[|root|..];
    var name := Join(rel, '/');
    JoinFacts(rel);
    SplitOfJoin(rel, '/');
    assert ReplaceChar(name, '\\', '/') == name;
    assert Plain(rel[0]) && name[0] != '/';
    assert !IsBlank(name);
    assert path == root + rel;
    if rel[0] == "collab" {
      if SafePath(root, name).Some? {
        ResolvePlain(root, rel[1..]);
        assert |root + rel[1..]| < |path|;
      }
    } else {
      ResolvePlain(root, rel);
      PlainComponentsPass(rel);
    }
  }

  lemma PlainComponentsPass(parts: Path)
    requires forall p | p in parts :: Plain(p)
    ensures !exists p | p in parts :: p in {"", ".", ".."}
    ensures !exists p | p in parts :: Lower(p) in FORBIDDEN_PARTS || StartsWithDot(p)
  {
    assert StartsWithDot(".") && StartsWithDot("..");
    forall p | p in parts ensures Lower(p) !in FORBIDDEN_PARTS && !StartsWithDot(p) {
      ForbiddenNames(Lower(p));
    }
  }

  /** With slashes for backslashes, the name is `parts` joined, after `collab` or not. */
  ghost predicate Names(requested: string, parts: Path) {
    var name := ReplaceChar(requested, '\\', '/');
    || (parts != [] && parts[0] != "collab" && name == Join(parts, '/'))
    || name == Join(["collab"] + parts, '/')
  }

  lemma NamedParts(requested: string, parts: Path)
    requires |parts| >= 2 && (forall p | p in parts :: Plain(p)) && Names(requested, parts)
    ensures var name := ReplaceChar(requested, '\\', '/');
            var split := Split(name, '/');
            && name != "" && name[0] != '/' && '\0' !in name && '/' in name
            && parts == if split[0] == "collab" then split[1..] else split
  {
    var name := ReplaceChar(requested, '\\', '/');
    if parts[0] != "collab" && name == Join(parts, '/') {
      JoinFacts(parts);
      SplitOfJoin(parts, '/');
    } else {
      assert Plain("collab") by {
        assert Lower("collab") == "collab";
      }
      JoinFacts(["collab"] + parts);
      SplitOfJoin(["collab"] + parts, '/');
    }
  }

  lemma SlashNotBlank(requested: string)
    requires '/' in ReplaceChar(requested, '\\', '/')
    ensures !IsBlank(requested)
  {
    var name := ReplaceChar(requested, '\\', '/');
    var i :| 0 <= i < |name| && name[i] == '/';
    assert requested[i] in requested;
  }

  lemma AcceptedNames(root: Path, requested: string) returns (parts: Path)
    requires SafePath(root, requested).Some?
    ensures |parts| >= 2 && (forall p | p in parts :: Plain(p)) && Names(requested, parts) && SafePath(root, requested).value == root + parts
  {
    var name := ReplaceChar(requested, '\\', '/');
    var split := Split(name, '/');
    AcceptedIsPlain(root, requested);
    JoinOfSplit(name, '/');
    parts := if split[0] == "collab" then split[1..] else split;
    hide Plain;
    ResolvePlain(root, parts);
    var path := SafePath(root, requested).value;
    assert path == root + parts && path[|root|..] == parts;
    assert split[0] == "collab" ==> split == ["collab"] + parts;
  }

  lemma NamesAccepted(root: Path, requested: string, parts: Path)
    requires |parts| >= 2 && (forall p | p in parts :: Plain(p)) && Names(requested, parts)
    ensures SafePath(root, requested) == Some(root + parts)
  {
    NamedParts(requested, parts);
    SlashNotBlank(requested);
    PlainComponentsPass(parts);
    ResolvePlain(root, parts);
    hide Plain, Names, Resolve;
  }

  /** A name is accepted exactly when it is at least two plain components joined by either slash, after
      `collab` or not, and then leads to just these components below the root. */
  lemma PathIff(root: Path, requested: string, path: Path)
    ensures SafePath(root, requested) == Some(path) <==>
            exists parts: Path :: |parts| >= 2 && (forall p | p in parts :: Plain(p)) && Names(requested, parts) && path == root + parts
  {
    hide SafePath, Plain, Names;
    if SafePath(root, requested) == Some(path) {
      var parts := AcceptedNames(root, requested);
    }
    if parts: Path :| |parts| >= 2 && (forall p | p in parts :: Plain(p)) && Names(requested, parts) && path == root + parts {
      NamesAccepted(root, requested, parts);
    }
  }
}
