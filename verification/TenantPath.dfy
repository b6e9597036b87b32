/**
 * Tenant directories of packages/tenant: the org slug of an email, and the path arithmetic of
 * POSIX join, normalize and basename that turns (org, user) into a directory.
 */
module TenantPath {
  import opened Text

  // ---- org slug -----------------------------------------------------------------------------

  /**
   * String.prototype.toLowerCase, exact on every character whose lower case is in [a-z0-9.-]:
   * besides A-Z these are U+212A (Kelvin sign) and the first letter of U+0130's lower case. Any
   * other character keeps a value that the slug filter drops in both cases.
   */
  function LowerChar(c: char): char {
    if 'A' <= c <= 'Z' then c - 'A' + 'a'
    else if c == '\U{212A}' then 'k'
    else if c == '\U{0130}' then 'i'
    else c
  }

  function Lower(s: string): string {
    seq(|s|, i requires 0 <= i < |s| => LowerChar(s[i]))
  }

  predicate SlugChar(c: char) {
    'a' <= c <= 'z' || '0' <= c <= '9' || c == '.' || c == '-'
  }

  predicate Digit(c: char) {
    '0' <= c <= '9'
  }

  function Slug(domain: string): string {
    var slug := Filter(domain, SlugChar);
    if slug == "" || slug == "." || slug == ".." then "unknown" else slug
  }

  function OrgFromEmail(email: string): string {
    var parts := Split(Lower(email), '@');
    Slug(if |parts| > 1 then parts[|parts| - 1] else "")
  }

  function Digits(userId: string): string {
    Filter(userId, Digit)
  }

  /** The slug is a safe single path segment: never empty, never a dot segment, no separator. */
  lemma OrgIsOneSegment(email: string)
    ensures PlainSegment(OrgFromEmail(email))
    ensures forall c <- OrgFromEmail(email) :: SlugChar(c)
  {
    assert forall c <- "unknown" :: SlugChar(c);
  }

  lemma LowerConcat(a: string, b: string)
    ensures Lower(a + ['@'] + b) == Lower(a) + ['@'] + Lower(b)
  {
  }

  lemma LowerHasNoAt(domain: string)
    requires '@' !in domain
    ensures '@' !in Lower(domain)
  {
    forall i | 0 <= i < |domain| ensures LowerChar(domain[i]) != '@' { assert domain[i] in domain; }
  }

  lemma LastOfConcat(a: seq<string>, b: seq<string>)
    requires b != []
    ensures (a + b)[|a + b| - 1] == b[|b| - 1]
  {
  }

  /** The org is the domain after the last '@', in any case, when it needs no clean-up; without '@' it is unknown. */
  lemma OrgIsTheDomain(local: string, domain: string)
    requires '@' !in domain
    ensures OrgFromEmail(domain) == "unknown"
    ensures OrgFromEmail(local + ['@'] + domain) == Slug(Lower(domain))
    ensures Lower(domain) !in {"", ".", ".."} && (forall c <- Lower(domain) :: SlugChar(c)) ==>
      OrgFromEmail(local + ['@'] + domain) == Lower(domain)
  {
    LowerHasNoAt(domain);
    SplitNoSeparator(Lower(domain), '@');
    LowerConcat(local, domain);
    SplitConcat(Lower(local), Lower(domain), '@');
    LastOfConcat(Split(Lower(local), '@'), Split(Lower(domain), '@'));
    if forall c <- Lower(domain) :: SlugChar(c) { FilterKeepsAll(Lower(domain), SlugChar); }
  }

  /** Equal up to the case of the letters A to Z. */
  predicate SameLetter(a: char, b: char) {
    a == b || ('A' <= a <= 'Z' && b == a - 'A' + 'a') || ('A' <= b <= 'Z' && a == b - 'A' + 'a')
  }

  /** Emails that differ only in letter case belong to one org. */
  lemma LetterCaseIsNoMatter(a: string, b: string)
    requires |a| == |b| && forall i | 0 <= i < |a| :: SameLetter(a[i], b[i])
    ensures OrgFromEmail(a) == OrgFromEmail(b)
  {
    assert Lower(a) == Lower(b);
  }

  /** The characters of a domain that the slug keeps: [A-Za-z0-9.-], and two that lower to such a letter. */
  predicate Kept(c: char) {
    'a' <= c <= 'z' || 'A' <= c <= 'Z' || '0' <= c <= '9' || c == '.' || c == '-' || c == '\U{212A}' || c == '\U{0130}'
  }

  /** The slug character a kept one becomes. */
  ghost predicate Becomes(c: char, kept: char) {
    && ('A' <= c <= 'Z' ==> kept == c - 'A' + 'a')
    && (c == '\U{212A}' ==> kept == 'k') && (c == '\U{0130}' ==> kept == 'i')
    && (!('A' <= c <= 'Z') && c != '\U{212A}' && c != '\U{0130}' ==> kept == c)
  }

  lemma LowerCharKeeps(c: char)
    ensures SlugChar(LowerChar(c)) <==> Kept(c)
    ensures Becomes(c, LowerChar(c))
  {
  }

  /**
   * Cleaning a domain keeps exactly those characters, in order and in lower case; what is then empty
   * or a dot segment is unknown.
   */
  lemma CleaningKeepsExactly(local: string, domain: string) returns (places: seq<nat>, kept: string)
    requires '@' !in domain
    ensures forall j, k | 0 <= j < k < |places| :: places[j] < places[k]
    ensures forall j | 0 <= j < |places| :: places[j] < |domain|
    ensures forall i | 0 <= i < |domain| :: i in places <==> Kept(domain[i])
    ensures |kept| == |places| && forall j | 0 <= j < |places| :: Becomes(domain[places[j]], kept[j])
    ensures OrgFromEmail(local + ['@'] + domain) == if kept in {"", ".", ".."} then "unknown" else kept
  {
    OrgIsTheDomain(local, domain);
    var lower := Lower(domain);
    places := FilterPlaces(lower, SlugChar);
    kept := Filter(lower, SlugChar);
    assert |lower| == |domain|;
    forall i | 0 <= i < |domain| ensures i in places <==> Kept(domain[i]) {
      assert lower[i] == LowerChar(domain[i]);
      LowerCharKeeps(domain[i]);
    }
    forall j | 0 <= j < |places| ensures Becomes(domain[places[j]], kept[j]) {
      assert kept[j] == lower[places[j]] == LowerChar(domain[places[j]]);
      LowerCharKeeps(domain[places[j]]);
    }
    UnknownUnlessPlain(lower, kept);
  }

  lemma UnknownUnlessPlain(lower: string, kept: string)
    requires kept == Filter(lower, SlugChar)
    ensures Slug(lower) == if kept in {"", ".", ".."} then "unknown" else kept
  {
  }

  /** A user id keeps exactly its digits, in order. */
  lemma DigitsKeepExactly(userId: string) returns (places: seq<nat>)
    ensures KeptAt(userId, (c: char) => '0' <= c <= '9', places, Digits(userId))
  {
    places := FilterPlaces(userId, Digit);
  }

  // ---- POSIX path functions -----------------------------------------------------------------

  /** A name that stands for exactly itself inside a path. */
  predicate PlainSegment(seg: string) {
    seg != "" && seg != "." && seg != ".." && '/' !in seg
  }

  predicate Absolute(path: string) {
    path != "" && path[0] == '/'
  }

  function Push(stack: seq<string>, seg: string, absolute: bool): seq<string> {
    if seg == "" || seg == "." then stack
    else if seg == ".." then
      if stack != [] && stack[|stack| - 1] != ".." then stack[..|stack| - 1]
      else if absolute then stack
      else stack + [".."]
    else stack + [seg]
  }

  function Resolve(stack: seq<string>, segs: seq<string>, absolute: bool): seq<string>
    decreases |segs|
  {
    if segs == [] then stack else Resolve(Push(stack, segs[0], absolute), segs[1..], absolute)
  }

  /** Where a path points: its segments from the root (or the working directory), dots resolved. */
  function Segments(path: string): seq<string> {
    Resolve([], Split(path, '/'), Absolute(path))
  }

  function Normalize(path: string): string {
    if path == "" then "."
    else
      var body := Join(Segments(path), '/');
      var trailing := path[|path| - 1] == '/';
      if body == "" then (if Absolute(path) then "/" else if trailing then "./" else ".")
      else Slash(Absolute(path)) + body + Slash(trailing)
  }

  function NonEmpty(args: seq<string>): seq<string> {
    if args == [] then [] else (if args[0] == "" then [] else [args[0]]) + NonEmpty(args[1..])
  }

  function PathJoin(args: seq<string>): string {
    var parts := NonEmpty(args);
    if parts == [] then "." else Normalize(Join(parts, '/'))
  }

  function LastNonEmpty(segs: seq<string>): string {
    if segs == [] then ""
    else if segs[|segs| - 1] != "" then segs[|segs| - 1]
    else LastNonEmpty(segs[..|segs| - 1])
  }

  function Basename(path: string): string {
    LastNonEmpty(Split(path, '/'))
  }

  lemma {:induction false} ResolveConcat(stack: seq<string>, a: seq<string>, b: seq<string>, absolute: bool)
    ensures Resolve(stack, a + b, absolute) == Resolve(Resolve(stack, a, absolute), b, absolute)
    decreases |a|
  {
    if a == [] {
      assert a + b == b;
    } else {
      assert (a + b)[1..] == a[1..] + b;
      ResolveConcat(Push(stack, a[0], absolute), a[1..], b, absolute);
    }
  }

  /** A resolved list of segments: only a relative path may climb, and only at its start. */
  ghost predicate Resolved(segs: seq<string>, absolute: bool) {
    forall i | 0 <= i < |segs| ::
      segs[i] != "" && segs[i] != "." && '/' !in segs[i] &&
      (segs[i] == ".." ==> !absolute && forall j | 0 <= j <= i :: segs[j] == "..")
  }

  lemma {:induction false} ResolveResolves(stack: seq<string>, segs: seq<string>, absolute: bool)
    requires Resolved(stack, absolute)
    requires forall seg <- segs :: '/' !in seg
    ensures Resolved(Resolve(stack, segs, absolute), absolute)
    decreases |segs|
  {
    if segs != [] {
      assert segs[0] in segs;
      ResolveResolves(Push(stack, segs[0], absolute), segs[1..], absolute);
    }
  }

  lemma {:induction false} ResolveKeeps(stack: seq<string>, segs: seq<string>, absolute: bool)
    requires Resolved(stack + segs, absolute)
    ensures Resolve(stack, segs, absolute) == stack + segs
    decreases |segs|
  {
    if segs != [] {
      assert (stack + segs)[|stack|] == segs[0];
      if segs[0] == ".." && stack != [] {
        assert (stack + segs)[|stack| - 1] == "..";
      }
      assert stack + [segs[0]] + segs[1..] == stack + segs;
      ResolveKeeps(stack + [segs[0]], segs[1..], absolute);
    }
  }

  lemma JoinHead(segs: seq<string>)
    requires segs != [] && segs[0] != ""
    ensures Join(segs, '/') != "" && Join(segs, '/')[0] == segs[0][0]
  {
  }

  function Slash(wanted: bool): string {
    if wanted then "/" else ""
  }

  lemma SplitTrailing(segs: seq<string>, trailing: bool)
    requires segs != [] && forall i | 0 <= i < |segs| :: '/' !in segs[i]
    ensures Split(Join(segs, '/') + Slash(trailing), '/') == segs + if trailing then [""] else []
  {
    SplitJoin(segs, '/');
    if trailing {
      SplitConcat(Join(segs, '/'), "", '/');
      assert Join(segs, '/') + ['/'] + "" == Join(segs, '/') + "/";
    } else {
      assert Join(segs, '/') + "" == Join(segs, '/') && segs + [] == segs;
    }
  }

  lemma ResolveWritten(segs: seq<string>, absolute: bool, trailing: bool)
    requires segs != [] && Resolved(segs, absolute)
    ensures Resolve([], segs + if trailing then [""] else [], absolute) == segs
  {
    assert [] + segs == segs;
    ResolveKeeps([], segs, absolute);
    ResolveConcat([], segs, if trailing then [""] else [], absolute);
  }

  /** A path written out of resolved segments points at exactly those segments. */
  lemma SegmentsOfWritten(segs: seq<string>, absolute: bool, trailing: bool)
    requires segs != [] && Resolved(segs, absolute)
    ensures Segments(Slash(absolute) + (Join(segs, '/') + Slash(trailing))) == segs
  {
    var rest := Join(segs, '/') + Slash(trailing);
    var tail := if trailing then [""] else [];
    SplitTrailing(segs, trailing);
    ResolveWritten(segs, absolute, trailing);
    JoinHead(segs);
    assert segs[0][0] in segs[0];
    if absolute {
      SplitConcat("", rest, '/');
      assert "" + ['/'] + rest == "/" + rest;
      ResolveConcat([], [""], segs + tail, true);
    } else {
      assert "" + rest == rest;
    }
  }

  /** Normalizing a path does not move it. */
  lemma NormalizeKeepsSegments(path: string)
    ensures Segments(Normalize(path)) == Segments(path)
  {
    var absolute := Absolute(path);
    var segs := Segments(path);
    ResolveResolves([], Split(path, '/'), absolute);
    if segs == [] {
      assert Segments("/") == [] && Segments("./") == [] && Segments(".") == [];
    } else {
      var trailing := path[|path| - 1] == '/';
      JoinHead(segs);
      SegmentsOfWritten(segs, absolute, trailing);
      assert Slash(absolute) + Join(segs, '/') + Slash(trailing)
          == Slash(absolute) + (Join(segs, '/') + Slash(trailing));
    }
  }

  ghost predicate AllPlain(names: seq<string>) {
    forall i | 0 <= i < |names| :: PlainSegment(names[i])
  }

  lemma {:induction false} NonEmptyKeeps(names: seq<string>)
    requires forall i | 0 <= i < |names| :: names[i] != ""
    ensures NonEmpty(names) == names
  {
    if names != [] { NonEmptyKeeps(names[1..]); }
  }

  lemma ResolvedAppend(segs: seq<string>, names: seq<string>, absolute: bool)
    requires Resolved(segs, absolute) && AllPlain(names)
    ensures Resolved(segs + names, absolute)
  {
    forall i | |segs| <= i < |segs + names| ensures PlainSegment((segs + names)[i]) {
      assert (segs + names)[i] == names[i - |segs|];
    }
  }

  /** Appending plain names to a path appends exactly those segments to where it points. */
  lemma JoinAppends(root: string, names: seq<string>)
    requires names != [] && AllPlain(names)
    ensures Segments(PathJoin([root] + names)) == Segments(root) + names
  {
    var tail := Join(names, '/');
    var absolute := Absolute(root);
    assert PlainSegment(names[0]) && names[0][0] in names[0];
    NonEmptyKeeps(names);
    assert ([root] + names)[1..] == names;
    SplitJoin(names, '/');
    JoinHead(names);
    var joined := if root == "" then tail else root + ['/'] + tail;
    if root == "" {
      assert [] + names == names;
    } else {
      SplitConcat(root, tail, '/');
      ResolveConcat([], Split(root, '/'), names, absolute);
    }
    ResolveResolves([], Split(root, '/'), absolute);
    ResolvedAppend(Segments(root), names, absolute);
    ResolveKeeps(Segments(root), names, absolute);
    NormalizeKeepsSegments(joined);
  }

  // ---- tenant directories -------------------------------------------------------------------

  /** tenantDir, for the key tenantKey returned: user ids there are non-empty digit strings. */
  function TenantDir(root: string, org: string, userId: string): string {
    PathJoin([root, org, "u" + userId])
  }

  /** tenantFile: None where the source throws. */
  function TenantFile(root: string, org: string, userId: string, name: string): Option<string> {
    var safe := Basename(name);
    if safe == "" || safe == "." || safe == ".." || '\0' in safe then None
    else Some(PathJoin([PathJoin([TenantDir(root, org, userId), "storage"]), safe]))
  }

  /** tenantDirRel of server/services/tenants.js: the directory a revoke purges. */
  function TenantDirRel(org: string, userId: string): string {
    PathJoin(["tenants", Slug(Lower(org)), "u" + Digits(userId)])
  }

  lemma DigitsPlain(userId: string)
    ensures PlainSegment("u" + Digits(userId))
  {
    var id := Digits(userId);
    assert ("u" + id)[0] == 'u';
    assert '/' !in id && '/' !in "u";
  }

  /** Every email and user id lands exactly two segments below the root, whatever the root is. */
  lemma TenantDirIsTwoBelowRoot(root: string, email: string, userId: string)
    ensures Segments(TenantDir(root, OrgFromEmail(email), Digits(userId)))
         == Segments(root) + [OrgFromEmail(email), "u" + Digits(userId)]
  {
    OrgIsOneSegment(email);
    DigitsPlain(userId);
    var names := [OrgFromEmail(email), "u" + Digits(userId)];
    assert [root] + names == [root, OrgFromEmail(email), "u" + Digits(userId)];
    JoinAppends(root, names);
  }

  /** Writing out a path that points at these segments, with no slash at its end. */
  lemma NormalizeText(path: string, segs: seq<string>)
    requires path != "" && path[0] == '/' && path[|path| - 1] != '/' && Segments(path) == segs != []
    requires Join(segs, '/') != ""
    ensures Normalize(path) == "/" + Join(segs, '/')
  {
    assert "/" + Join(segs, '/') + "" == "/" + Join(segs, '/');
  }

  /** Where a plain path with two plain names appended points. */
  lemma SegmentsOfThree(segs: seq<string>, a: string, b: string)
    requires segs != [] && AllPlain(segs) && PlainSegment(a) && PlainSegment(b)
    ensures Segments("/" + Join(segs + [a, b], '/')) == segs + [a, b]
  {
    ResolvedAppend([], segs + [a, b], true);
    assert [] + (segs + [a, b]) == segs + [a, b];
    SegmentsOfWritten(segs + [a, b], true, false);
    assert Slash(true) + (Join(segs + [a, b], '/') + Slash(false)) == "/" + Join(segs + [a, b], '/');
  }

  lemma WrittenThree(segs: seq<string>, a: string, b: string) returns (path: string)
    requires segs != [] && AllPlain(segs) && PlainSegment(a) && PlainSegment(b)
    ensures path == "/" + Join(segs + [a, b], '/') == "/" + Join(segs, '/') + ['/'] + (a + ['/'] + b)
    ensures Join(segs + [a, b], '/') != "" && path[|path| - 1] == b[|b| - 1] != '/'
  {
    JoinConcat(segs, [a, b], '/');
    JoinOfTwo(a, b);
    path := "/" + Join(segs, '/') + ['/'] + (a + ['/'] + b);
    assert "/" + (Join(segs, '/') + ['/'] + (a + ['/'] + b)) == path;
    assert b[|b| - 1] in b;
  }

  /** Joining two plain names to an absolute root in plain form writes them behind it. */
  lemma PathJoinText(segs: seq<string>, a: string, b: string)
    requires segs != [] && AllPlain(segs) && PlainSegment(a) && PlainSegment(b)
    ensures var root := "/" + Join(segs, '/'); PathJoin([root, a, b]) == root + ['/'] + (a + ['/'] + b)
  {
    var root := "/" + Join(segs, '/');
    var path := WrittenThree(segs, a, b);
    SegmentsOfThree(segs, a, b);
    NormalizeText(path, segs + [a, b]);
    NonEmptyKeeps([root, a, b]);
    assert [root, a, b][1..] == [a, b];
    JoinOfTwo(a, b);
  }

  /** Under an absolute root in plain form the directory is the root, the org and the numbered user. */
  lemma TenantDirText(segs: seq<string>, email: string, userId: string)
    requires segs != [] && AllPlain(segs)
    ensures var root := "/" + Join(segs, '/');
            TenantDir(root, OrgFromEmail(email), Digits(userId)) ==
              root + ['/'] + (OrgFromEmail(email) + ['/'] + ("u" + Digits(userId)))
  {
    OrgIsOneSegment(email);
    DigitsPlain(userId);
    PathJoinText(segs, OrgFromEmail(email), "u" + Digits(userId));
  }

  lemma JoinOfTwo(a: string, b: string)
    ensures Join([a, b], '/') == a + ['/'] + b
  {
    assert [a, b][1..] == [b];
  }

  /** Tenants never share a directory, and no tenant directory lies inside another one. */
  lemma TenantsAreDisjoint(root: string, email1: string, id1: string, email2: string, id2: string)
    ensures var d1 := TenantDir(root, OrgFromEmail(email1), Digits(id1));
            var d2 := TenantDir(root, OrgFromEmail(email2), Digits(id2));
            && (d1 == d2 <==> OrgFromEmail(email1) == OrgFromEmail(email2) && Digits(id1) == Digits(id2))
            && (Segments(d1) <= Segments(d2) ==> d1 == d2)
  {
    TenantDirIsTwoBelowRoot(root, email1, id1);
    TenantDirIsTwoBelowRoot(root, email2, id2);
    var s1 := Segments(root) + [OrgFromEmail(email1), "u" + Digits(id1)];
    var s2 := Segments(root) + [OrgFromEmail(email2), "u" + Digits(id2)];
    if s1 <= s2 {
      assert s1 == s2;
      assert s1[|s1| - 2] == OrgFromEmail(email1) && s2[|s2| - 2] == OrgFromEmail(email2);
      assert s1[|s1| - 1] == "u" + Digits(id1) && s2[|s2| - 1] == "u" + Digits(id2);
      assert Digits(id1) == ("u" + Digits(id1))[1..] == ("u" + Digits(id2))[1..] == Digits(id2);
    }
  }

  lemma {:induction false} LastNonEmptyIsSegment(segs: seq<string>)
    requires forall i | 0 <= i < |segs| :: '/' !in segs[i]
    ensures '/' !in LastNonEmpty(segs)
  {
    if segs != [] {
      LastNonEmptyIsSegment(segs[..|segs| - 1]);
    }
  }

  lemma BasenameIsSegment(name: string)
    ensures '/' !in Basename(name)
  {
    assert forall i | 0 <= i < |Split(name, '/')| :: Split(name, '/')[i] in Split(name, '/');
    LastNonEmptyIsSegment(Split(name, '/'));
  }

  /** A path is reduced to its last component, and a plain name to itself. */
  lemma BasenameIsTheLastComponent(directory: string, name: string)
    requires PlainSegment(name)
    ensures Basename(name) == name && Basename(directory + ['/'] + name) == name
    ensures Basename(directory + ['/'] + name + ['/']) == name
  {
    SplitNoSeparator(name, '/');
    SplitConcat(directory, name, '/');
    LastOfConcat(Split(directory, '/'), [name]);
    var path := directory + ['/'] + name;
    SplitConcat(path, "", '/');
    assert path + ['/'] + "" == path + ['/'];
    assert (Split(path, '/') + [""])[..|Split(path, '/')|] == Split(path, '/');
  }

  lemma JoinTwice(dir: string, first: string, second: string)
    requires PlainSegment(first) && PlainSegment(second)
    ensures Segments(PathJoin([PathJoin([dir, first]), second])) == Segments(dir) + [first, second]
  {
    assert [dir] + [first] == [dir, first];
    JoinAppends(dir, [first]);
    var inner := PathJoin([dir, first]);
    assert [inner] + [second] == [inner, second];
    JoinAppends(inner, [second]);
    assert Segments(dir) + [first] + [second] == Segments(dir) + [first, second];
  }

  /** An accepted file name lands exactly one segment below the tenant's storage directory. */
  lemma FilesStayInStorage(root: string, email: string, userId: string, name: string)
    ensures var file := TenantFile(root, OrgFromEmail(email), Digits(userId), name);
            && (file == None <==> !PlainSegment(Basename(name)) || '\0' in Basename(name))
            && (file != None ==>
                  Segments(file.value) ==
                  Segments(root) + [OrgFromEmail(email), "u" + Digits(userId)] + ["storage", Basename(name)])
  {
    BasenameIsSegment(name);
    TenantDirIsTwoBelowRoot(root, email, userId);
    if PlainSegment(Basename(name)) {
      JoinTwice(TenantDir(root, OrgFromEmail(email), Digits(userId)), "storage", Basename(name));
    }
  }

  /** A raw domain, in any case and with any stray characters, names the directory of its org. */
  lemma RawDomainNamesTheSame(local: string, domain: string, userId: string)
    requires '@' !in domain
    ensures TenantDirRel(domain, userId) == TenantDirRel(OrgFromEmail(local + ['@'] + domain), userId)
  {
    OrgIsTheDomain(local, domain);
    PurgeHitsTheTenant(local + ['@'] + domain, userId);
  }

  /** A revoke purges the very directory the app's own helper uses for that tenant. */
  lemma PurgeHitsTheTenant(email: string, userId: string)
    ensures TenantDirRel(OrgFromEmail(email), userId) == TenantDir("tenants", OrgFromEmail(email), Digits(userId))
  {
    var org := OrgFromEmail(email);
    OrgIsOneSegment(email);
    forall i | 0 <= i < |org| ensures LowerChar(org[i]) == org[i] { assert org[i] in org; }
    assert Lower(org) == org;
    FilterKeepsAll(org, SlugChar);
  }
}
