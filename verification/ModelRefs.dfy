/** Model references, their canonical ids, and the GGUF file names derived from them. */
module ModelRefs {
  import opened Prelude
  import opened Strings

  datatype ModelRef = LocalPath(path: string) | Hf(repo: string, file: string) | HfRepo(repo: string)

  datatype Invalid = Empty | BadHfRef | NoPath | BadSelector | NoOwner | Unrecognized

  // ----- parsing -----

  predicate IsAsciiLetter(c: char) { 'a' <= c <= 'z' || 'A' <= c <= 'Z' }

  predicate IsWindowsAbsolute(s: string) {
    |s| >= 3 && IsAsciiLetter(s[0]) && s[1] == ':' && (s[2] == '\\' || s[2] == '/')
  }

  /** `trim_start_matches("file:")`: every leading occurrence goes. */
  function StripFile(s: string): (r: string)
    ensures |r| <= |s| && !("file:" <= r)
    ensures r == s <==> !("file:" <= s)
  {
    if "file:" <= s then StripFile(s[5..]) else s
  }

  function BaseName(repo: string): string {
    var halves := SplitLast(repo, '/');
    StripSuffix(if halves.Halves? then halves.right else repo, "-GGUF")
  }

  function InferGguf(repo: string, selector: string): string {
    if EndsWith(selector, ".gguf") then selector else BaseName(repo) + "-" + selector + ".gguf"
  }

  /** Behind `hf:`. */
  function ParseHf(rest: string): Result<ModelRef, Invalid> {
    match SplitFirst(rest, ':')
    case Whole => Err(BadHfRef)
    case Halves(repo, file) => Ok(Hf(repo, file))
  }

  function ParseFile(raw: string): Result<ModelRef, Invalid> {
    var path := Trim(StripFile(raw));
    if path == "" then Err(NoPath) else Ok(LocalPath(path))
  }

  function ParseSelector(left: string, right: string): Result<ModelRef, Invalid> {
    var repo, selector := Trim(left), Trim(right);
    if repo == "" || selector == "" then Err(BadSelector)
    else if '/' !in repo then Err(NoOwner)
    else Ok(Hf(repo, InferGguf(repo, selector)))
  }

  predicate LooksLikePath(raw: string, pathExists: string -> bool)
    requires raw != ""
  {
    EndsWith(raw, ".gguf") || raw[0] == '.' || raw[0] == '/' || "\\\\" <= raw || '\\' in raw || pathExists(raw)
  }

  /** `parse_model_ref`; `pathExists` answers `Path::exists`. */
  function ParseModelRef(input: string, pathExists: string -> bool): Result<ModelRef, Invalid> {
    var raw := Trim(input);
    if raw == "" then Err(Empty)
    else if "hf:" <= raw then ParseHf(raw[3..])
    else if "file:" <= raw then ParseFile(raw)
    else if IsWindowsAbsolute(raw) then Ok(LocalPath(raw))
    else
      match SplitLast(raw, ':')
      case Halves(left, right) => ParseSelector(left, right)
      case Whole =>
        if LooksLikePath(raw, pathExists) then Ok(LocalPath(raw))
        else if '/' in raw then Ok(HfRepo(raw))
        else Err(Unrecognized)
  }

  function HfId(repo: string, file: string): string { "hf:" + repo + ":" + file }

  function FileId(path: string): string { "file:" + path }

  // ----- canonical ids -----

  lemma {:induction false} HfIdTrims(repo: string, file: string)
    ensures Trim(HfId(repo, file)) == HfId(repo, TrimEnd(file))
  {
    var front := "hf:" + repo + ":";
    assert front[|front| - 1] == ':' && HfId(repo, file)[0] == 'h';
    assert HfId(repo, file) == front + file;
    TrimEndAfter(front, file);
  }

  lemma {:induction false} HfIdParses(repo: string, file: string, pathExists: string -> bool)
    ensures ParseModelRef(HfId(repo, file), pathExists) == ParseHf(repo + ":" + TrimEnd(file))
  {
    HfIdTrims(repo, file);
    var raw := HfId(repo, TrimEnd(file));
    HfIdShape(repo, TrimEnd(file));
    hide ParseHf, ParseFile, ParseSelector, LooksLikePath, IsWindowsAbsolute, Trim, TrimEnd, HfId;
  }

  lemma HfIdShape(repo: string, file: string)
    ensures HfId(repo, file) != "" && "hf:" <= HfId(repo, file) && HfId(repo, file)[3..] == repo + ":" + file
  {
  }

  /** A Hugging Face id is read back exactly when the repo has no colon and the file no trailing space. */
  lemma {:induction false} HfIdRoundTripExact(repo: string, file: string, pathExists: string -> bool)
    ensures ParseModelRef(HfId(repo, file), pathExists) == Ok(Hf(repo, file)) <==> ':' !in repo && TrimEnd(file) == file
  {
    HfIdParses(repo, file, pathExists);
    hide ParseModelRef, HfId, TrimEnd;
    var rest := repo + ":" + TrimEnd(file);
    assert rest[|repo|] == ':' && ':' in rest;
    if ':' !in repo {
      FirstIsUnique(repo, ':', TrimEnd(file));
    }
  }

  lemma {:induction false} FileIdTrims(path: string)
    ensures Trim(FileId(path)) == FileId(TrimEnd(path))
  {
    assert FileId(path)[0] == 'f' && "file:"[4] == ':';
    TrimEndAfter("file:", path);
  }

  lemma {:induction false} FileIdShape(path: string)
    ensures FileId(path) != "" && "file:" <= FileId(path) && !("hf:" <= FileId(path))
    ensures StripFile(FileId(path)) == StripFile(path)
  {
    assert FileId(path)[5..] == path && FileId(path)[0] == 'f';
  }

  lemma {:induction false} FileIdParses(path: string, pathExists: string -> bool)
    ensures ParseModelRef(FileId(path), pathExists)
            == var p := Trim(StripFile(TrimEnd(path))); if p == "" then Err(NoPath) else Ok(LocalPath(p))
  {
    FileIdTrims(path);
    FileIdShape(TrimEnd(path));
    hide ParseHf, ParseSelector, LooksLikePath, IsWindowsAbsolute, Trim, TrimEnd, FileId, StripFile;
  }

  /** A file id is read back exactly when the path is non-empty, trimmed and does not itself start with the prefix. */
  lemma {:induction false} FileIdRoundTripExact(path: string, pathExists: string -> bool)
    ensures ParseModelRef(FileId(path), pathExists) == Ok(LocalPath(path))
            <==> path != "" && Trim(path) == path && !("file:" <= path)
  {
    FileIdParses(path, pathExists);
    assert path != "" && Trim(path) == path ==> TrimEnd(path) == path;
    hide ParseModelRef, Trim, TrimEnd, FileId, StripFile;
  }

  lemma {:induction false} ParsedIsTrimmed(input: string, pathExists: string -> bool)
    requires ParseModelRef(input, pathExists).Ok?
    ensures match ParseModelRef(input, pathExists).value
            case Hf(_, file) => file != "" ==> !IsSpace(file[|file| - 1])
            case LocalPath(path) => path != "" && NoEdgeSpace(path)
            case HfRepo(repo) => '/' in repo
  {
    var raw := Trim(input);
    SuffixIsVisible();
    hide IsWindowsAbsolute, LooksLikePath, Trim, StripFile, BaseName, IsSpace;
    if "hf:" <= raw {
      hide ParseSelector, ParseFile;
      var file := ParseModelRef(input, pathExists).value.file;
      assert file != "" ==> file[|file| - 1] == raw[|raw| - 1];
    } else if "file:" <= raw {
      hide ParseSelector, ParseHf;
    } else {
      hide ParseHf, ParseFile;
    }
  }

  lemma SuffixIsVisible()
    ensures !IsSpace('f') && ".gguf"[4] == 'f'
  {
  }

  /** Parsing, printing the canonical id and parsing again is stable exactly for repos without a colon. */
  lemma {:induction false} HfReparseExact(input: string, pathExists: string -> bool)
    requires ParseModelRef(input, pathExists).Ok? && ParseModelRef(input, pathExists).value.Hf?
    ensures var m := ParseModelRef(input, pathExists).value;
            ParseModelRef(HfId(m.repo, m.file), pathExists) == Ok(m) <==> ':' !in m.repo
  {
    var m := ParseModelRef(input, pathExists).value;
    ParsedIsTrimmed(input, pathExists);
    assert TrimEnd(m.file) == m.file;
    HfIdRoundTripExact(m.repo, m.file, pathExists);
    hide ParseModelRef, TrimEnd;
  }

  /** The same for local paths: stable exactly when the path does not start with the prefix again. */
  lemma {:induction false} FileReparseExact(input: string, pathExists: string -> bool)
    requires ParseModelRef(input, pathExists).Ok? && ParseModelRef(input, pathExists).value.LocalPath?
    ensures var m := ParseModelRef(input, pathExists).value;
            ParseModelRef(FileId(m.path), pathExists) == Ok(m) <==> !("file:" <= m.path)
  {
    var m := ParseModelRef(input, pathExists).value;
    ParsedIsTrimmed(input, pathExists);
    FileIdRoundTripExact(m.path, pathExists);
    hide ParseModelRef, IsSpace;
  }

  // ----- GGUF names -----

  datatype Metadata = Metadata(family: string, quant: string)

  predicate IsDigit(c: char) { '0' <= c <= '9' }

  predicate IsQuantSegment(seg: string) {
    seg != "" && seg[0] == 'Q' && exists i :: 1 <= i < |seg| && IsDigit(seg[i])
  }

  /** What a name says, read around its last dash. */
  function GgufMetadata(filename: string): Metadata {
    var stem := StripSuffix(filename, ".gguf");
    var halves := SplitLast(stem, '-');
    var family, last := if halves.Halves? then halves.left else "", if halves.Halves? then halves.right else stem;
    if IsQuantSegment(Upper(last)) then Metadata(if family == "" then stem else family, Upper(last))
    else Metadata(stem, "unknown")
  }

  /** Splitting at every dash and joining all but the last piece again is splitting at the last dash. */
  lemma {:induction false} SplitAtLastDash(stem: string)
    ensures var segments, halves := Split(stem, '-'), SplitLast(stem, '-');
            && segments[|segments| - 1] == (if halves.Halves? then halves.right else stem)
            && Join(segments[..|segments| - 1], '-') == (if halves.Halves? then halves.left else "")
  {
    var halves := SplitLast(stem, '-');
    if halves.Halves? {
      SplitAppend(halves.left, '-', halves.right);
      JoinSplit(halves.left, '-');
      assert Split(stem, '-')[..|Split(stem, '-')| - 1] == Split(halves.left, '-');
    } else {
      SplitNone(stem, '-');
    }
  }

  /** `parse_gguf_metadata`, which splits at every dash and joins again, with its reassigned locals. */
  method ParseGgufMetadata(filename: string) returns (r: Metadata)
    ensures r == GgufMetadata(filename)
  {
    var stem := StripSuffix(filename, ".gguf");
    var quant := "unknown";
    var family := stem;
    var segments := Split(stem, '-');
    SplitAtLastDash(stem);
    var upper := Upper(segments[|segments| - 1]);
    if IsQuantSegment(upper) {
      quant := upper;
      family := Join(segments[..|segments| - 1], '-');
      if family == "" {
        family := stem;
      }
    }
    return Metadata(family, quant);
  }

  /** The metadata of an inferred name gives back the repo's base name and the quantization, exactly when
      there is a base name and the selector is one quantization segment and not itself a file name. */
  lemma {:induction false} GgufRoundTripExact(repo: string, selector: string)
    ensures GgufMetadata(InferGguf(repo, selector)) == Metadata(BaseName(repo), Upper(selector))
            <==> !EndsWith(selector, ".gguf") && BaseName(repo) != ""
                 && '-' !in selector && IsQuantSegment(Upper(selector))
  {
    NotUnknown(selector);
    if !EndsWith(selector, ".gguf") {
      InferredRoundTrip(repo, selector);
    }
  }

  lemma {:induction false} InferredRoundTrip(repo: string, selector: string)
    requires !EndsWith(selector, ".gguf")
    ensures GgufMetadata(InferGguf(repo, selector)) == Metadata(BaseName(repo), Upper(selector))
            <==> BaseName(repo) != "" && '-' !in selector && IsQuantSegment(Upper(selector))
  {
    var base := BaseName(repo);
    var stem := base + "-" + selector;
    var name := stem + ".gguf";
    assert name[|name| - 5..] == ".gguf" && name[..|name| - 5] == stem;
    assert StripSuffix(InferGguf(repo, selector), ".gguf") == stem;
    NotUnknown(selector);
    if '-' !in selector {
      LastIsUnique(base, '-', selector);
    } else {
      LastPieceOf(base, selector);
    }
  }

  lemma NotUnknown(s: string)
    ensures Upper(s) != "unknown"
  {
    if |s| == 7 {
      assert Upper(s)[0] == UpperChar(s[0]) && "unknown"[0] == 'u';
    }
  }

  /** The last piece of a name whose selector holds a dash is shorter than the selector. */
  lemma {:induction false} LastPieceOf(front: string, selector: string)
    requires '-' in selector
    ensures var halves := SplitLast(front + "-" + selector, '-'); halves.Halves? && |halves.right| < |selector|
  {
    var inner := SplitLast(selector, '-');
    var left := front + "-" + inner.left;
    assert selector == inner.left + ['-'] + inner.right;
    LastIsUnique(left, '-', inner.right);
    hide SplitLast;
    assert front + "-" + selector == left + ['-'] + inner.right;
  }

  /** `-GGUF` comes off the end once. */
  function WithoutGguf(name: string): string {
    if |name| >= 5 && name[|name| - 5..] == "-GGUF" then name[..|name| - 5] else name
  }

  predicate IsGgufFile(s: string) { |s| >= 5 && s[|s| - 5..] == ".gguf" }

  /** The file inferred for a repo `owner/name`: the selector when it is a file, otherwise `<name>-<selector>.gguf`. */
  lemma {:induction false} InferExact(owner: string, name: string, selector: string)
    requires '/' !in name
    ensures InferGguf(owner + "/" + name, selector)
            == if IsGgufFile(selector) then selector else WithoutGguf(name) + "-" + selector + ".gguf"
    ensures BaseName(owner + "/" + name) == WithoutGguf(name) && BaseName(name) == WithoutGguf(name)
  {
    LastIsUnique(owner, '/', name);
    assert owner + "/" + name == owner + ['/'] + name;
    Suffixes(name);
    Suffixes(selector);
    hide SplitLast, StripSuffix, EndsWith, WithoutGguf, IsGgufFile;
    assert SplitLast(name, '/').Whole?;
  }

  lemma Suffixes(s: string)
    ensures StripSuffix(s, "-GGUF") == WithoutGguf(s) && (EndsWith(s, ".gguf") <==> IsGgufFile(s))
  {
  }

  /** A piece that names a quantization, in either case: a q and a digit somewhere behind it. */
  predicate NamesQuant(piece: string) {
    piece != "" && (piece[0] == 'Q' || piece[0] == 'q') && exists i :: 1 <= i < |piece| && '0' <= piece[i] <= '9'
  }

  lemma NamesQuantExact(piece: string)
    ensures IsQuantSegment(Upper(piece)) <==> NamesQuant(piece)
  {
    var upper := Upper(piece);
    assert forall i :: 0 <= i < |piece| ==> (IsDigit(upper[i]) <==> '0' <= piece[i] <= '9');
    if NamesQuant(piece) {
      var i :| 1 <= i < |piece| && '0' <= piece[i] <= '9';
      assert IsDigit(upper[i]);
    }
  }

  /** What a file name says, around its last dash or without one: the quantization when the last piece names one. */
  lemma {:induction false} MetadataExact(front: string, last: string)
    requires '-' !in last
    ensures GgufMetadata(front + "-" + last + ".gguf")
            == if NamesQuant(last) then Metadata(if front == "" then "-" + last else front, Upper(last))
               else Metadata(front + "-" + last, "unknown")
    ensures GgufMetadata(last + ".gguf")
            == if NamesQuant(last) then Metadata(last, Upper(last)) else Metadata(last, "unknown")
    ensures !IsGgufFile(front + "-" + last) ==>
              GgufMetadata(front + "-" + last) == GgufMetadata(front + "-" + last + ".gguf")
  {
    hide *;
    var stem := front + "-" + last;
    Suffixed(stem);
    Suffixed(last);
    NamesQuantExact(last);
    DashedStem(front, last);
    MetadataOfStem(stem + ".gguf", stem);
    MetadataOfStem(last + ".gguf", last);
    if !IsGgufFile(stem) {
      MetadataOfStem(stem, stem);
    }
  }

  lemma DashedStem(front: string, last: string)
    requires '-' !in last
    ensures SplitLast(front + "-" + last, '-') == Halves(front, last) && SplitLast(last, '-').Whole?
    ensures front == "" ==> front + "-" + last == "-" + last
  {
    LastIsUnique(front, '-', last);
    assert front + "-" + last == front + ['-'] + last;
  }

  lemma MetadataOfStem(filename: string, stem: string)
    requires StripSuffix(filename, ".gguf") == stem
    ensures GgufMetadata(filename)
            == match SplitLast(stem, '-')
               case Whole =>
                 if IsQuantSegment(Upper(stem)) then Metadata(stem, Upper(stem)) else Metadata(stem, "unknown")
               case Halves(front, last) =>
                 if IsQuantSegment(Upper(last)) then Metadata(if front == "" then stem else front, Upper(last))
                 else Metadata(stem, "unknown")
  {
    hide IsQuantSegment, SplitLast, Upper, StripSuffix;
  }

  lemma Suffixed(stem: string)
    ensures StripSuffix(stem + ".gguf", ".gguf") == stem
    ensures !IsGgufFile(stem) ==> StripSuffix(stem, ".gguf") == stem
  {
    var name := stem + ".gguf";
    assert name[|name| - 5..] == ".gguf" && name[..|name| - 5] == stem;
  }

  // ----- which inputs give which reference -----

  predicate HasScheme(raw: string) { "hf:" <= raw || "file:" <= raw }

  predicate IsDrivePath(raw: string) {
    |raw| >= 3 && ('a' <= raw[0] <= 'z' || 'A' <= raw[0] <= 'Z') && raw[1] == ':' && (raw[2] == '\\' || raw[2] == '/')
  }

  predicate IsPathLike(raw: string, pathExists: string -> bool) {
    IsGgufFile(raw) || "." <= raw || "/" <= raw || '\\' in raw || pathExists(raw)
  }

  /** `<repo>:<selector>` around the last colon. */
  predicate Selects(raw: string, left: string, right: string) {
    raw == left + ":" + right && ':' !in right
  }

  lemma {:induction false} SelectsExact(raw: string, left: string, right: string)
    ensures Selects(raw, left, right) <==> SplitLast(raw, ':') == Halves(left, right)
  {
    if Selects(raw, left, right) {
      LastIsUnique(left, ':', right);
      assert raw == left + [':'] + right;
    }
  }

  lemma {:induction false} ParseHfExact(rest: string, repo: string, file: string)
    ensures ParseHf(rest) == Ok(Hf(repo, file)) <==> rest == repo + ":" + file && ':' !in repo
  {
    if rest == repo + ":" + file && ':' !in repo {
      FirstIsUnique(repo, ':', file);
      assert rest == repo + [':'] + file;
    }
  }

  lemma PathLikeExact(raw: string, pathExists: string -> bool)
    requires raw != ""
    ensures LooksLikePath(raw, pathExists) <==> IsPathLike(raw, pathExists)
    ensures IsWindowsAbsolute(raw) <==> IsDrivePath(raw)
  {
    assert "\\\\" <= raw ==> raw[0] in raw && raw[0] == '\\';
  }

  /** The branches of the parser, by the scheme and then by the last colon. */
  lemma ParseBranches(input: string, pathExists: string -> bool)
    ensures var raw, r := Trim(input), ParseModelRef(input, pathExists);
            && (raw == "" ==> r == Err(Empty))
            && ("hf:" <= raw ==> r == ParseHf(raw[3..]))
            && ("file:" <= raw ==> r == ParseFile(raw))
            && (raw != "" && !HasScheme(raw) && IsDrivePath(raw) ==> r == Ok(LocalPath(raw)))
            && (raw != "" && !HasScheme(raw) && !IsDrivePath(raw) ==>
                  match SplitLast(raw, ':')
                  case Halves(left, right) => r == ParseSelector(left, right)
                  case Whole =>
                    r == if IsPathLike(raw, pathExists) then Ok(LocalPath(raw))
                         else if '/' in raw then Ok(HfRepo(raw)) else Err(Unrecognized))
  {
    var raw := Trim(input);
    if raw != "" {
      PathLikeExact(raw, pathExists);
    }
    assert "hf:" <= raw ==> raw[0] == 'h';
    assert "file:" <= raw ==> raw[0] == 'f';
    hide Trim, ParseSelector, ParseHf, ParseFile, LooksLikePath, IsPathLike, IsDrivePath, IsWindowsAbsolute, SplitLast;
  }

  /**
   Exactly the inputs that give a Hugging Face file: `hf:<repo>:<file>` around the first colon, or
   `<owner>/<name>:<selector>` around the last one with the file inferred.
   */
  lemma {:induction false} HfExactly(input: string, pathExists: string -> bool, repo: string, file: string)
    ensures ParseModelRef(input, pathExists) == Ok(Hf(repo, file)) <==>
              var raw := Trim(input);
              || (raw == "hf:" + repo + ":" + file && ':' !in repo)
              || (!HasScheme(raw) && !IsDrivePath(raw) &&
                  exists left, right :: Selects(raw, left, right) && Trim(left) == repo && '/' in repo
                                        && Trim(right) != "" && file == InferGguf(repo, Trim(right)))
  {
    hide *;
    var raw := Trim(input);
    ParseBranches(input, pathExists);
    RawFacts(raw);
    HfText(raw, repo, file);
    PlainSelects(raw, repo, file);
  }

  lemma HfText(raw: string, repo: string, file: string)
    ensures "hf:" <= raw ==>
              (ParseHf(raw[3..]) == Ok(Hf(repo, file)) <==> raw == "hf:" + repo + ":" + file && ':' !in repo)
    ensures !("hf:" <= raw) ==> raw != "hf:" + repo + ":" + file
  {
    if "hf:" <= raw {
      ParseHfExact(raw[3..], repo, file);
      assert raw == "hf:" + raw[3..];
      assert "hf:" + (repo + ":" + file) == "hf:" + repo + ":" + file;
      assert raw == "hf:" + repo + ":" + file ==> raw[3..] == repo + ":" + file;
    } else {
      assert "hf:" <= "hf:" + repo + ":" + file;
    }
  }

  lemma PlainSelects(raw: string, repo: string, file: string)
    ensures ':' in raw ==>
              SplitLast(raw, ':').Halves? &&
              (ParseSelector(SplitLast(raw, ':').left, SplitLast(raw, ':').right) == Ok(Hf(repo, file)) <==>
                 exists left, right :: Selects(raw, left, right) && Trim(left) == repo && '/' in repo
                                       && Trim(right) != "" && file == InferGguf(repo, Trim(right)))
    ensures ':' !in raw ==> forall left, right :: !Selects(raw, left, right)
  {
    hide *;
    forall left, right
      ensures Selects(raw, left, right) <==> SplitLast(raw, ':') == Halves(left, right)
    {
      SelectsExact(raw, left, right);
    }
    if ':' in raw {
      var halves := SplitLast(raw, ':');
      assert Selects(raw, halves.left, halves.right);
      SelectorExact(halves.left, halves.right, repo, file);
    }
  }

  lemma SelectorExact(left: string, right: string, repo: string, file: string)
    ensures ParseSelector(left, right) == Ok(Hf(repo, file)) <==>
              Trim(left) == repo && '/' in repo && Trim(right) != "" && file == InferGguf(repo, Trim(right))
  {
    hide Trim, InferGguf;
  }

  /** Exactly the inputs that give a local path: `file:` and a path, a drive path, or what looks like a path. */
  lemma {:induction false} PathExactly(input: string, pathExists: string -> bool, path: string)
    ensures ParseModelRef(input, pathExists) == Ok(LocalPath(path)) <==>
              var raw := Trim(input);
              && path != ""
              && (if "file:" <= raw then path == Trim(StripFile(raw))
                  else path == raw && !("hf:" <= raw)
                       && (IsDrivePath(raw) || (':' !in raw && IsPathLike(raw, pathExists))))
  {
    hide *;
    ParseBranches(input, pathExists);
    RawFacts(Trim(input));
  }

  /** What the parts of the parser say of a trimmed text. */
  lemma RawFacts(raw: string)
    ensures HasScheme(raw) <==> "hf:" <= raw || "file:" <= raw
    ensures "hf:" <= raw ==> !("file:" <= raw)
    ensures HasScheme(raw) || IsDrivePath(raw) ==> ':' in raw && raw != ""
    ensures ParseFile(raw)
            == if Trim(StripFile(raw)) == "" then Err(NoPath) else Ok(LocalPath(Trim(StripFile(raw))))
    ensures "hf:" <= raw ==>
              match ParseHf(raw[3..])
              case Ok(m) => m.Hf? && ':' in raw[3..]
              case Err(e) => e == BadHfRef && ':' !in raw[3..]
    ensures match SplitLast(raw, ':')
            case Whole => ':' !in raw
            case Halves(left, right) =>
              ':' in raw &&
              match ParseSelector(left, right) case Ok(m) => m.Hf? case Err(e) => e == BadSelector || e == NoOwner
  {
    hide *;
    SchemeFacts(raw);
    FileParses(raw);
    if "hf:" <= raw {
      HfParses(raw[3..]);
    }
    match SplitLast(raw, ':')
    case Whole =>
    case Halves(left, right) => SelectorParses(left, right);
  }

  lemma SchemeFacts(raw: string)
    ensures HasScheme(raw) <==> "hf:" <= raw || "file:" <= raw
    ensures "hf:" <= raw ==> !("file:" <= raw)
    ensures HasScheme(raw) || IsDrivePath(raw) ==> ':' in raw && raw != ""
  {
    assert "hf:" <= raw ==> raw[0] == 'h' && raw[2] == ':';
    assert "file:" <= raw ==> raw[0] == 'f' && raw[4] == ':';
    assert IsDrivePath(raw) ==> raw[1] == ':';
  }

  lemma FileParses(raw: string)
    ensures ParseFile(raw)
            == if Trim(StripFile(raw)) == "" then Err(NoPath) else Ok(LocalPath(Trim(StripFile(raw))))
  {
    hide Trim, StripFile;
  }

  lemma HfParses(rest: string)
    ensures match ParseHf(rest) case Ok(m) => m.Hf? && ':' in rest case Err(e) => e == BadHfRef && ':' !in rest
  {
    hide SplitFirst;
  }

  lemma SelectorParses(left: string, right: string)
    ensures match ParseSelector(left, right) case Ok(m) => m.Hf? case Err(e) => e == BadSelector || e == NoOwner
  {
    hide Trim, InferGguf;
  }

  /** Exactly the inputs that give a bare repo: an owner and a name with nothing that looks like a path or a colon. */
  lemma {:induction false} RepoExactly(input: string, pathExists: string -> bool, repo: string)
    ensures ParseModelRef(input, pathExists) == Ok(HfRepo(repo)) <==>
              repo == Trim(input) && ':' !in repo && '/' in repo && !IsPathLike(repo, pathExists)
  {
    hide *;
    ParseBranches(input, pathExists);
    RawFacts(Trim(input));
  }

  /** Why an input is refused. */
  lemma {:induction false} RefusedExactly(input: string, pathExists: string -> bool)
    ensures var raw, r := Trim(input), ParseModelRef(input, pathExists);
            && (r == Err(Empty) <==> raw == "")
            && (r == Err(BadHfRef) <==> "hf:" <= raw && ':' !in raw[3..])
            && (r == Err(NoPath) <==> "file:" <= raw && Trim(StripFile(raw)) == "")
            && (r == Err(Unrecognized) <==>
                  raw != "" && ':' !in raw && '/' !in raw && !IsPathLike(raw, pathExists))
            && (r == Err(BadSelector) || r == Err(NoOwner) ==> ':' in raw && !HasScheme(raw) && !IsDrivePath(raw))
  {
    hide *;
    ParseBranches(input, pathExists);
    RawFacts(Trim(input));
  }
}
