/** Reading a GitHub Actions identity from the certificate of a verified bundle.
    The X.509 parser's output, the URI names and the extensions in order, is the input. */
module Certificate {
  import opened Wrappers
  import opened Evidence
  import opened Identity
  import opened Text
  import opened Codecs

  // ---- Extension values ----

  predicate IsGraphic(b: byte) {
    33 <= b <= 126
  }

  /** Not empty, and graphic ASCII throughout; any other byte, and so any
      multi-byte or malformed UTF-8, is turned down. */
  predicate Printable(bytes: Bytes) {
    bytes != [] && forall i | 0 <= i < |bytes| :: IsGraphic(bytes[i])
  }

  const UTF8_STRING: byte := 0x0c
  const LONG_FORM: byte := 0x81

  /** The value of an extension: raw text, or a DER UTF8String. */
  function ExtensionString(bytes: Bytes): Option<string> {
    if Printable(bytes) then Some(TextOf(bytes))
    else if |bytes| < 3 || bytes[0] != UTF8_STRING then None
    else if bytes[1] < 0x80 then Complete(bytes, bytes[1], 2)
    else if bytes[1] == LONG_FORM then Complete(bytes, bytes[2], 3)
    else None
  }

  function Complete(bytes: Bytes, length: nat, offset: nat): Option<string>
    requires offset <= |bytes|
  {
    if |bytes| == offset + length && Printable(bytes[offset..]) then Some(TextOf(bytes[offset..])) else None
  }

  /** The DER encodings of a value: tag, length, contents. */
  function ShortForm(value: Bytes): Bytes
    requires |value| < 0x80
  {
    [UTF8_STRING, |value|] + value
  }

  function LongForm(value: Bytes): Bytes
    requires |value| < 0x100
  {
    [UTF8_STRING, LONG_FORM, |value|] + value
  }

  lemma TextIsInjective(a: Bytes, b: Bytes)
    requires TextOf(a) == TextOf(b)
    ensures a == b
  {
    assert |a| == |TextOf(a)| == |TextOf(b)|;
    forall i | 0 <= i < |a|
      ensures a[i] == b[i]
    {
      assert TextOf(a)[i] == TextOf(b)[i];
    }
  }

  /** A value is read exactly from these three forms: itself, and the two DER
      encodings that its length allows. */
  lemma ExtensionStringExact(bytes: Bytes, value: Bytes)
    ensures ExtensionString(bytes) == Some(TextOf(value)) <==>
      Printable(value) &&
      (bytes == value || (|value| < 0x80 && bytes == ShortForm(value)) || (|value| < 0x100 && bytes == LongForm(value)))
  {
    if ExtensionString(bytes) == Some(TextOf(value)) {
      if Printable(bytes) {
        TextIsInjective(bytes, value);
      } else if bytes[1] < 0x80 {
        TextIsInjective(bytes[2..], value);
        assert bytes == [bytes[0], bytes[1]] + bytes[2..];
      } else {
        TextIsInjective(bytes[3..], value);
        assert bytes == [bytes[0], bytes[1], bytes[2]] + bytes[3..];
      }
    } else if Printable(value) {
      FormsAreRead(value);
    }
  }

  lemma FormsAreRead(value: Bytes)
    requires Printable(value)
    ensures ExtensionString(value) == Some(TextOf(value))
    ensures |value| < 0x80 ==> ExtensionString(ShortForm(value)) == Some(TextOf(value))
    ensures |value| < 0x100 ==> ExtensionString(LongForm(value)) == Some(TextOf(value))
  {
    if |value| < 0x80 {
      assert !IsGraphic(ShortForm(value)[0]);
      assert ShortForm(value)[2..] == value;
    }
    if |value| < 0x100 {
      assert !IsGraphic(LongForm(value)[0]);
      assert LongForm(value)[3..] == value;
    }
  }

  /** No byte string is a form of two different values, or two forms of one. */
  lemma FormsDoNotOverlap(a: Bytes, b: Bytes)
    requires Printable(a) && Printable(b)
    ensures |b| < 0x80 ==> a != ShortForm(b)
    ensures |b| < 0x100 ==> a != LongForm(b)
    ensures |a| < 0x80 && |b| < 0x100 ==> ShortForm(a) != LongForm(b)
  {
    assert IsGraphic(a[0]);
    if |a| < 0x80 && |b| < 0x100 {
      assert ShortForm(a)[1] < 0x80 && LongForm(b)[1] == LONG_FORM;
    }
  }

  // ---- GitHub URIs ----

  const GITHUB := "https://github.com/"
  const WORKFLOWS := "/.github/workflows/"

  predicate GithubWorkflowUri(value: string) {
    match StripPrefix(value, GITHUB)
    case None => false
    case Some(rest) =>
      var parts := Split(rest, '/');
      |parts| >= 5 && parts[0] != "" && parts[1] != "" && parts[2] == ".github" && parts[3] == "workflows" &&
          '@' in parts[4]
  }

  function GithubRepositoryIdentity(value: string): Option<string> {
    var rest := if StripPrefix(value, GITHUB).Some? then StripPrefix(value, GITHUB).value else value;
    var parts := Split(rest, '/');
    if |parts| == 2 && parts[0] != "" && parts[1] != "" then Some(parts[0] + "/" + parts[1]) else None
  }

  function GithubWorkflowRepository(value: string): Option<string> {
    match StripPrefix(value, GITHUB)
    case None => None
    case Some(rest) =>
      var parts := Split(rest, '/');
      if |parts| >= 4 && parts[2] == ".github" && parts[3] == "workflows" then Some(parts[0] + "/" + parts[1]) else None
  }

  predicate FortyHexDigits(digits: string) {
    |digits| == 40 && forall i | 0 <= i < |digits| :: IsHexDigit(digits[i])
  }

  predicate GithubSha(value: string) {
    FortyHexDigits(if StripPrefix(value, "sha1:").Some? then StripPrefix(value, "sha1:").value else value)
  }

  predicate GithubRef(value: string) {
    "refs/heads/" <= value || "refs/tags/" <= value || "refs/pull/" <= value
  }

  predicate GithubEvent(value: string) {
    1 <= |value| <= 64 && forall i | 0 <= i < |value| :: 'a' <= value[i] <= 'z' || value[i] == '_'
  }

  // ---- The identity ----

  datatype Extension = Extension(oid: string, value: Bytes)

  /** The readable extensions by id; of several with one id the last one stays. */
  function Collect(extensions: seq<Extension>): map<string, string> {
    if extensions == [] then map[]
    else
      var last := extensions[|extensions| - 1];
      var earlier := Collect(extensions[..|extensions| - 1]);
      var value := ExtensionString(last.value);
      if value.Some? then earlier[last.oid := value.value] else earlier
  }

  function Lookup(m: map<string, string>, oids: seq<string>): Option<string> {
    if oids == [] then None
    else if oids[0] in m then Some(m[oids[0]])
    else Lookup(m, oids[1..])
  }

  const ISSUER := ["1.3.6.1.4.1.57264.1.1"]
  const REPOSITORY := ["1.3.6.1.4.1.57264.1.11", "1.3.6.1.4.1.57264.1.5"]
  const WORKFLOW := ["1.3.6.1.4.1.57264.1.17"]
  const REVISION := ["1.3.6.1.4.1.57264.1.12", "1.3.6.1.4.1.57264.1.3"]
  const REF := ["1.3.6.1.4.1.57264.1.13", "1.3.6.1.4.1.57264.1.6"]
  const EVENT := ["1.3.6.1.4.1.57264.1.2"]

  function FirstWorkflow(uris: seq<string>): Option<string> {
    if uris == [] then None
    else if GithubWorkflowUri(uris[0]) then Some(uris[0])
    else FirstWorkflow(uris[1..])
  }

  function IdentityFromCertificate(uris: seq<string>, extensions: seq<Extension>): Result<CiIdentity, string> {
    var certificate := FirstWorkflow(uris);
    var claims := Collect(extensions);
    var issuer, repositoryUri, workflow := Lookup(claims, ISSUER), Lookup(claims, REPOSITORY), Lookup(claims, WORKFLOW);
    var revision, ref, event := Lookup(claims, REVISION), Lookup(claims, REF), Lookup(claims, EVENT);
    if certificate.None? then Err("INVALID_SIGSTORE_IDENTITY")
    else if issuer != Some(GITHUB_ACTIONS_ISSUER) then Err("UNTRUSTED_OIDC_ISSUER")
    else if repositoryUri.None? || GithubRepositoryIdentity(repositoryUri.value).None?
        then Err("INVALID_SIGSTORE_IDENTITY")
    else if workflow.None? || !GithubWorkflowUri(workflow.value) then Err("INVALID_SIGSTORE_IDENTITY")
    else if revision.None? || !GithubSha(revision.value) then Err("INVALID_SIGSTORE_IDENTITY")
    else if ref.None? || !GithubRef(ref.value) then Err("INVALID_SIGSTORE_IDENTITY")
    else if event.None? || !GithubEvent(event.value) then Err("INVALID_SIGSTORE_IDENTITY")
    else
      var repository := GithubRepositoryIdentity(repositoryUri.value).value;
      if workflow != certificate || GithubWorkflowRepository(workflow.value) != Some(repository) ||
         !EndsWith(workflow.value, "@" + ref.value)
      then Err("INVALID_SIGSTORE_IDENTITY")
      else Ok(CiIdentity(issuer.value, repository, workflow.value, revision.value, ref.value, event.value,
          certificate.value))
  }

  // ---- What an identity says ----

  /** A repository part: not empty and without a slash. */
  predicate IsName(name: string) {
    name != "" && '/' !in name
  }

  lemma SplitTwo(a: string, b: string)
    requires '/' !in a && '/' !in b
    ensures Split(a + "/" + b, '/') == [a, b]
  {
    SplitFirst(a, b, '/');
    SplitOne(b, '/');
  }

  lemma JoinFrom(parts: seq<string>, i: nat)
    requires i + 1 < |parts|
    ensures Join(parts[i..], '/') == parts[i] + "/" + Join(parts[i + 1..], '/')
  {
    assert parts[i..][1..] == parts[i + 1..];
  }

  lemma Regrouped(owner: string, name: string, tail: string)
    ensures owner + "/" + (name + "/" + (".github" + "/" + ("workflows" + "/" + tail))) == owner + "/" + name +
        WORKFLOWS + tail
  {
  }

  lemma JoinedWorkflow(parts: seq<string>)
    requires |parts| >= 5 && parts[2] == ".github" && parts[3] == "workflows"
    ensures Join(parts, '/') == parts[0] + "/" + parts[1] + WORKFLOWS + Join(parts[4..], '/')
  {
    assert parts[0..] == parts;
    JoinFrom(parts, 0);
    JoinFrom(parts, 1);
    JoinFrom(parts, 2);
    JoinFrom(parts, 3);
    Regrouped(parts[0], parts[1], Join(parts[4..], '/'));
  }

  /** A workflow URI is the repository, the workflows directory, and a tail. */
  lemma WorkflowParts(uri: string) returns (owner: string, name: string, tail: string)
    requires GithubWorkflowUri(uri)
    ensures IsName(owner) && IsName(name)
    ensures uri == GITHUB + (owner + "/" + name + WORKFLOWS + tail) && '@' in tail
    ensures GithubWorkflowRepository(uri) == Some(owner + "/" + name)
  {
    var parts := Split(uri[|GITHUB|..], '/');
    JoinOfSplit(uri[|GITHUB|..], '/');
    JoinedWorkflow(parts);
    owner, name, tail := parts[0], parts[1], Join(parts[4..], '/');
    assert parts[4] <= tail;
  }

  /** Why a certificate is turned down: the issuer is blamed exactly when there is a
      workflow URI and the issuer is not GitHub's, whatever else is wrong. */
  lemma IdentityErrors(uris: seq<string>, extensions: seq<Extension>)
    ensures var r := IdentityFromCertificate(uris, extensions);
      && (r == Err("UNTRUSTED_OIDC_ISSUER") <==>
           (exists uri :: uri in uris && GithubWorkflowUri(uri)) &&
               Lookup(Collect(extensions), ISSUER) != Some(GITHUB_ACTIONS_ISSUER))
      && (r.Err? ==> r.error in {"UNTRUSTED_OIDC_ISSUER", "INVALID_SIGSTORE_IDENTITY"})
  {
    FirstWorkflowIsOne(uris);
    assert "UNTRUSTED_OIDC_ISSUER"[0] != "INVALID_SIGSTORE_IDENTITY"[0];
  }

  /** Where a suffix that starts with '@' can begin. */
  lemma SuffixInTail(head: string, tail: string, ref: string)
    requires EndsWith(head + tail, "@" + ref)
    ensures |tail| > |ref| <==> exists file :: tail == file + "@" + ref
    ensures '@' !in head ==> |tail| > |ref|
  {
    var suffix := "@" + ref;
    var at := |head + tail| - |suffix|;
    assert (head + tail)[at..][0] == suffix[0] == '@';
    if at >= |head| {
      assert tail[at - |head|..] == (head + tail)[at..];
      assert tail == tail[..at - |head|] + suffix == tail[..at - |head|] + "@" + ref;
    }
  }

  /** The workflow of an identity is the certificate's URI and belongs to its
      repository, which is two names; it ends with the ref; and the tail after the
      workflows directory is a file at that ref exactly when it is long enough. */
  lemma IdentityShape(uris: seq<string>, extensions: seq<Extension>) returns (owner: string, name: string, tail: string)
    requires IdentityFromCertificate(uris, extensions).Ok?
    ensures var id := IdentityFromCertificate(uris, extensions).value;
      && IsName(owner) && IsName(name) && id.repositoryIdentity == owner + "/" + name
      && id.issuer == GITHUB_ACTIONS_ISSUER
      && id.certificateIdentity == id.workflowIdentity
      && id.workflowIdentity in uris
      && id.workflowIdentity == GITHUB + id.repositoryIdentity + WORKFLOWS + tail
      && GithubRef(id.sourceRef) && EndsWith(id.workflowIdentity, "@" + id.sourceRef)
      && GithubSha(id.sourceRevision) && GithubEvent(id.eventType)
      && (|tail| > |id.sourceRef| <==> exists file :: tail == file + "@" + id.sourceRef)
      && ('@' !in owner && '@' !in name ==> |tail| > |id.sourceRef|)
  {
    var id := IdentityFromCertificate(uris, extensions).value;
    FirstWorkflowIsOne(uris);
    owner, name, tail := WorkflowParts(id.workflowIdentity);
    var head := GITHUB + id.repositoryIdentity + WORKFLOWS;
    HeadAndTail(owner + "/" + name, tail);
    SuffixInTail(head, tail, id.sourceRef);
    if '@' !in owner && '@' !in name {
      NoAt(owner, name);
    }
  }

  lemma HeadAndTail(repository: string, tail: string)
    ensures GITHUB + (repository + WORKFLOWS + tail) == GITHUB + repository + WORKFLOWS + tail
  {
  }

  lemma NoAt(owner: string, name: string)
    requires '@' !in owner && '@' !in name
    ensures '@' !in GITHUB + (owner + "/" + name) + WORKFLOWS
  {
    assert '@' !in GITHUB && '@' !in "/" && '@' !in WORKFLOWS;
  }

  lemma {:induction false} FirstWorkflowIsOne(uris: seq<string>)
    ensures FirstWorkflow(uris).Some? ==>
      FirstWorkflow(uris).value in uris && GithubWorkflowUri(FirstWorkflow(uris).value)
    ensures FirstWorkflow(uris).None? ==> forall uri | uri in uris :: !GithubWorkflowUri(uri)
  {
    if uris != [] && !GithubWorkflowUri(uris[0]) {
      FirstWorkflowIsOne(uris[1..]);
    }
  }

  lemma SplitFive(a: string, b: string, c: string, d: string, tail: string)
    requires '/' !in a && '/' !in b && '/' !in c && '/' !in d
    ensures Split(a + "/" + b + "/" + c + "/" + d + "/" + tail, '/') == [a, b, c, d] + Split(tail, '/')
  {
    var t3 := d + "/" + tail;
    var t2 := c + "/" + t3;
    var t1 := b + "/" + t2;
    assert a + "/" + b + "/" + c + "/" + d + "/" + tail == a + "/" + t1;
    SplitFirst(a, t1, '/');
    SplitFirst(b, t2, '/');
    SplitFirst(c, t3, '/');
    SplitFirst(d, tail, '/');
  }

  lemma SplitWorkflow(owner: string, name: string, tail: string)
    requires '/' !in owner && '/' !in name
    ensures var uri := GITHUB + owner + "/" + name + WORKFLOWS + tail;
      StripPrefix(uri, GITHUB).Some? &&
      Split(StripPrefix(uri, GITHUB).value, '/') == [owner, name, ".github", "workflows"] + Split(tail, '/')
  {
    var rest := owner + "/" + name + "/" + ".github" + "/" + "workflows" + "/" + tail;
    SplitFive(owner, name, ".github", "workflows", tail);
    assert GITHUB + owner + "/" + name + WORKFLOWS + tail == GITHUB + rest;
  }

  const REACHING_REF: string := "refs/heads" + WORKFLOWS + "f@x"
  const REACHED_WORKFLOW := GITHUB + "a@refs" + "/" + "heads" + WORKFLOWS + "f@x"

  lemma EndsWithLast(head: string, a: string, b: string, tail: string)
    requires head == a + b
    ensures EndsWith(head + WORKFLOWS + tail, b + WORKFLOWS + tail)
  {
    assert head + WORKFLOWS + tail == a + (b + WORKFLOWS + tail);
  }

  lemma ReachedEnds()
    ensures EndsWith(REACHED_WORKFLOW, "@" + REACHING_REF)
  {
    EndsWithLast(GITHUB + "a@refs" + "/" + "heads", GITHUB + "a", "@" + "refs/heads", "f@x");
    assert "@" + REACHING_REF == "@" + "refs/heads" + WORKFLOWS + "f@x";
  }

  lemma ReachedIsShort()
    ensures forall file: string ::
      |REACHED_WORKFLOW| < |GITHUB + "a@refs/heads" + WORKFLOWS + (file + "@" + REACHING_REF)|
  {
  }

  lemma ReachedIsRead()
    ensures GithubWorkflowUri(REACHED_WORKFLOW)
    ensures GithubWorkflowRepository(REACHED_WORKFLOW) == GithubRepositoryIdentity("a@refs/heads") ==
        Some("a@refs/heads")
  {
    SplitWorkflow("a@refs", "heads", "f@x");
    SplitOne("f@x", '/');
    assert "f@x"[1] == '@';
    assert "a@refs" + "/" + "heads" == "a@refs/heads";
    RepositoryIsRead("a@refs", "heads");
  }

  lemma ReachedIsUsable()
    ensures GithubWorkflowUri(REACHED_WORKFLOW) && GithubRef(REACHING_REF) &&
        EndsWith(REACHED_WORKFLOW, "@" + REACHING_REF)
    ensures GithubWorkflowRepository(REACHED_WORKFLOW) == GithubRepositoryIdentity("a@refs/heads") ==
        Some("a@refs/heads")
  {
    ReachedEnds();
    ReachedIsRead();
  }

  /** With an '@' in the repository, the ref that the certificate ends with can
      reach back over the workflows directory: every certificate with this workflow
      and this ref, whose other claims fit, is accepted, and its workflow is not a
      file of the directory at its ref. */
  lemma RefCanReachBack(uris: seq<string>, extensions: seq<Extension>)
    requires var claims := Collect(extensions);
      && FirstWorkflow(uris) == Lookup(claims, WORKFLOW) == Some(REACHED_WORKFLOW)
      && Lookup(claims, REF) == Some(REACHING_REF)
      && Lookup(claims, REPOSITORY) == Some("a@refs/heads")
      && Lookup(claims, ISSUER) == Some(GITHUB_ACTIONS_ISSUER)
      && Lookup(claims, REVISION).Some? && GithubSha(Lookup(claims, REVISION).value)
      && Lookup(claims, EVENT).Some? && GithubEvent(Lookup(claims, EVENT).value)
    ensures var r := IdentityFromCertificate(uris, extensions);
      && r.Ok? && r.value.workflowIdentity == REACHED_WORKFLOW && r.value.sourceRef == REACHING_REF
      && r.value.repositoryIdentity == "a@refs/heads"
      && forall file: string :: r.value.workflowIdentity != GITHUB + r.value.repositoryIdentity + WORKFLOWS +
          (file + "@" + r.value.sourceRef)
  {
    ReachedIsUsable();
    ReachedIsShort();
  }

  /** Conversely, every identity of well-formed parts can be read: a certificate
      whose first workflow URI and readable claims spell them out is accepted. */
  lemma WellFormedIsAccepted(owner: string, name: string, file: string, ref: string, uris: seq<string>,
      extensions: seq<Extension>)
    requires IsName(owner) && IsName(name) && '/' !in file && GithubRef(ref)
    requires var uri := GITHUB + owner + "/" + name + WORKFLOWS + file + "@" + ref;
      var claims := Collect(extensions);
      && FirstWorkflow(uris) == Some(uri)
      && Lookup(claims, ISSUER) == Some(GITHUB_ACTIONS_ISSUER)
      && Lookup(claims, REPOSITORY) in {Some(owner + "/" + name), Some(GITHUB + owner + "/" + name)}
      && Lookup(claims, WORKFLOW) == Some(uri)
      && Lookup(claims, REVISION).Some? && GithubSha(Lookup(claims, REVISION).value)
      && Lookup(claims, REF) == Some(ref)
      && Lookup(claims, EVENT).Some? && GithubEvent(Lookup(claims, EVENT).value)
    ensures var r := IdentityFromCertificate(uris, extensions);
      r.Ok? && r.value.repositoryIdentity == owner + "/" + name
  {
    var uri := GITHUB + owner + "/" + name + WORKFLOWS + file + "@" + ref;
    WellFormedUri(owner, name, file, ref);
    RepositoryIsRead(owner, name);
  }

  lemma RepositoryIsRead(owner: string, name: string)
    requires IsName(owner) && IsName(name)
    ensures GithubRepositoryIdentity(owner + "/" + name) == Some(owner + "/" + name)
    ensures GithubRepositoryIdentity(GITHUB + owner + "/" + name) == Some(owner + "/" + name)
  {
    var pair := owner + "/" + name;
    SplitTwo(owner, name);
    assert (GITHUB + owner + "/" + name)[|GITHUB|..] == pair;
    assert forall i | 0 <= i < |pair| && pair[i] == '/' :: i == |owner|;
    assert |pair| < 8 || pair[6] != '/' || pair[7] != '/';
    assert GITHUB[6] == '/' && GITHUB[7] == '/';
  }

  lemma FirstPartHasAt(file: string, ref: string)
    requires '/' !in file && GithubRef(ref)
    ensures '@' in Split(file + "@" + ref, '/')[0]
  {
    assert ref[..5] == "refs/";
    var first := file + "@refs";
    assert file + "@" + ref == first + ['/'] + ref[5..];
    SplitFirst(first, ref[5..], '/');
    assert first[|file|] == '@';
  }

  lemma WellFormedUri(owner: string, name: string, file: string, ref: string)
    requires IsName(owner) && IsName(name) && '/' !in file && GithubRef(ref)
    ensures var uri := GITHUB + owner + "/" + name + WORKFLOWS + file + "@" + ref;
      GithubWorkflowUri(uri) && GithubWorkflowRepository(uri) == Some(owner + "/" + name) && EndsWith(uri, "@" + ref)
  {
    var uri := GITHUB + owner + "/" + name + WORKFLOWS + file + "@" + ref;
    var tail := file + "@" + ref;
    assert uri == GITHUB + owner + "/" + name + WORKFLOWS + tail;
    SplitWorkflow(owner, name, tail);
    FirstPartHasAt(file, ref);
    assert uri[|uri| - |"@" + ref|..] == "@" + ref;
  }

  // ---- Where each field comes from ----

  ghost predicate ReadableAs(e: Extension, oid: string) {
    e.oid == oid && ExtensionString(e.value).Some?
  }

  ghost predicate LastReadable(extensions: seq<Extension>, oid: string, i: int, value: string) {
    && 0 <= i < |extensions| && ReadableAs(extensions[i], oid) && ExtensionString(extensions[i].value) == Some(value)
    && forall j | i < j < |extensions| :: !ReadableAs(extensions[j], oid)
  }

  /** The last readable extension with an id is the claim; there is none exactly when
      no extension with the id can be read. */
  lemma {:induction false} CollectExact(extensions: seq<Extension>, oid: string)
    ensures var claims := Collect(extensions);
      && (oid in claims <==> exists i :: 0 <= i < |extensions| && ReadableAs(extensions[i], oid))
      && (oid in claims ==> exists i :: LastReadable(extensions, oid, i, claims[oid]))
  {
    if extensions != [] {
      var front, last := extensions[..|extensions| - 1], |extensions| - 1;
      CollectExact(front, oid);
      if ReadableAs(extensions[last], oid) {
        assert LastReadable(extensions, oid, last, Collect(extensions)[oid]);
      } else if oid in Collect(front) {
        var i :| LastReadable(front, oid, i, Collect(front)[oid]);
        assert LastReadable(extensions, oid, i, Collect(extensions)[oid]);
      } else {
        assert forall i | 0 <= i < last :: front[i] == extensions[i];
      }
    }
  }

  ghost predicate FirstAt(uris: seq<string>, uri: string, i: int) {
    0 <= i < |uris| && uris[i] == uri && GithubWorkflowUri(uri) && forall j | 0 <= j < i :: !GithubWorkflowUri(uris[j])
  }

  /** The URI of the identity is the first workflow URI of the certificate. */
  lemma {:induction false} FirstWorkflowExact(uris: seq<string>, uri: string)
    ensures FirstWorkflow(uris) == Some(uri) <==>
      exists i :: FirstAt(uris, uri, i)
  {
    if uris != [] {
      FirstWorkflowExact(uris[1..], uri);
      if GithubWorkflowUri(uris[0]) {
        assert uris[0] == uri ==> FirstAt(uris, uri, 0);
      } else {
        if i :| FirstAt(uris[1..], uri, i) {
          assert FirstAt(uris, uri, i + 1);
        }
        if i :| FirstAt(uris, uri, i) {
          assert FirstAt(uris[1..], uri, i - 1);
        }
      }
    }
  }

  /** The claim under one id, or else under another. */
  ghost predicate ClaimIs(claims: map<string, string>, oid: string, otherwise: Option<string>, value: string) {
    if oid in claims then claims[oid] == value
    else otherwise.Some? && otherwise.value in claims && claims[otherwise.value] == value
  }

  /** Each field of an identity is the claim under its own id: the generic id where
      there is one, and the legacy id only where it is missing. */
  lemma IdentityFields(uris: seq<string>, extensions: seq<Extension>)
    requires IdentityFromCertificate(uris, extensions).Ok?
    ensures var id, claims := IdentityFromCertificate(uris, extensions).value, Collect(extensions);
      && ClaimIs(claims, "1.3.6.1.4.1.57264.1.1", None, id.issuer)
      && ClaimIs(claims, "1.3.6.1.4.1.57264.1.17", None, id.workflowIdentity)
      && ClaimIs(claims, "1.3.6.1.4.1.57264.1.12", Some("1.3.6.1.4.1.57264.1.3"), id.sourceRevision)
      && ClaimIs(claims, "1.3.6.1.4.1.57264.1.13", Some("1.3.6.1.4.1.57264.1.6"), id.sourceRef)
      && ClaimIs(claims, "1.3.6.1.4.1.57264.1.2", None, id.eventType)
      && (exists i :: FirstAt(uris, id.certificateIdentity, i))
      && (ClaimIs(claims, "1.3.6.1.4.1.57264.1.11", Some("1.3.6.1.4.1.57264.1.5"), id.repositoryIdentity) ||
          ClaimIs(claims, "1.3.6.1.4.1.57264.1.11", Some("1.3.6.1.4.1.57264.1.5"), GITHUB + id.repositoryIdentity))
  {
    var claims := Collect(extensions);
    LookupOne(claims, "1.3.6.1.4.1.57264.1.1");
    LookupOne(claims, "1.3.6.1.4.1.57264.1.17");
    LookupOne(claims, "1.3.6.1.4.1.57264.1.2");
    LookupTwo(claims, "1.3.6.1.4.1.57264.1.12", "1.3.6.1.4.1.57264.1.3");
    LookupTwo(claims, "1.3.6.1.4.1.57264.1.13", "1.3.6.1.4.1.57264.1.6");
    LookupTwo(claims, "1.3.6.1.4.1.57264.1.11", "1.3.6.1.4.1.57264.1.5");
    RepositoryIsClaimed(Lookup(claims, REPOSITORY).value);
    FirstWorkflowExact(uris, FirstWorkflow(uris).value);
  }

  lemma LookupOne(claims: map<string, string>, oid: string)
    ensures Lookup(claims, [oid]) == if oid in claims then Some(claims[oid]) else None
  {
    assert [oid][1..] == [];
  }

  lemma LookupTwo(claims: map<string, string>, oid: string, other: string)
    ensures Lookup(claims, [oid, other]) ==
      if oid in claims then Some(claims[oid]) else if other in claims then Some(claims[other]) else None
  {
    assert [oid, other][1..] == [other];
    LookupOne(claims, other);
  }

  lemma RepositoryIsClaimed(value: string)
    requires GithubRepositoryIdentity(value).Some?
    ensures value in {GithubRepositoryIdentity(value).value, GITHUB + GithubRepositoryIdentity(value).value}
  {
    var rest := if StripPrefix(value, GITHUB).Some? then StripPrefix(value, GITHUB).value else value;
    JoinOfSplit(rest, '/');
    var parts := Split(rest, '/');
    assert parts[1..] == [parts[1]];
    assert rest == parts[0] + "/" + parts[1];
    assert StripPrefix(value, GITHUB).Some? ==> value == GITHUB + rest;
  }

  // ---- What the claims may be ----

  /** Twenty bytes in hexadecimal. */
  ghost predicate IsSha(digits: string) {
    HexDecode(digits).Some? && |HexDecode(digits).value| == 20
  }

  lemma ShaDigits(digits: string)
    ensures IsSha(digits) <==> FortyHexDigits(digits)
  {
    HexDigitsDecode(digits);
  }

  /** A revision is 20 bytes in hexadecimal, after "sha1:" or alone. */
  lemma ShaMeans(value: string)
    ensures GithubSha(value) <==> IsSha(value) || exists digits :: IsSha(digits) && value == "sha1:" + digits
  {
    ShaDigits(value);
    if "sha1:" <= value {
      var rest := value[5..];
      ShaDigits(rest);
      assert value == "sha1:" + rest;
      assert StripPrefix(value, "sha1:") == Some(rest);
      assert !IsHexDigit(value[0]);
      assert GithubSha(value) <==> IsSha(rest);
      forall digits | IsSha(digits) && value == "sha1:" + digits
        ensures IsSha(rest)
      {
        assert digits == rest;
      }
    } else {
      assert StripPrefix(value, "sha1:").None?;
    }
  }

  /** A ref is a branch, a tag or a pull request. */
  lemma RefMeans(value: string)
    ensures GithubRef(value) <==>
      exists kind, name :: kind in {"heads", "tags", "pull"} && value == "refs/" + kind + "/" + name
  {
    if "refs/heads/" <= value {
      assert value == "refs/" + "heads" + "/" + value[11..];
    } else if "refs/tags/" <= value {
      assert value == "refs/" + "tags" + "/" + value[10..];
    } else if "refs/pull/" <= value {
      assert value == "refs/" + "pull" + "/" + value[10..];
    }
    forall kind, name | kind in {"heads", "tags", "pull"} && value == "refs/" + kind + "/" + name
      ensures GithubRef(value)
    {
      assert "refs/" + "heads" + "/" == "refs/heads/";
      assert "refs/" + "tags" + "/" == "refs/tags/";
      assert "refs/" + "pull" + "/" == "refs/pull/";
    }
  }

  const EVENT_LETTERS: string := LOWER + "_"

  /** An event is one to 64 lower-case letters and underscores. */
  lemma EventMeans(value: string)
    ensures GithubEvent(value) <==> 1 <= |value| <= 64 && forall c | c in value :: c in EVENT_LETTERS
  {
    forall c: char
      ensures c in EVENT_LETTERS <==> 'a' <= c <= 'z' || c == '_'
    {
      EventLetter(c);
    }
    assert forall i | 0 <= i < |value| :: value[i] in value;
  }

  lemma EventLetter(c: char)
    ensures c in EVENT_LETTERS <==> 'a' <= c <= 'z' || c == '_'
  {
    if 'a' <= c <= 'z' {
      LetterAt((c - 'a') as int);
      assert LOWER[(c - 'a') as int] == c;
    }
    if i :| 0 <= i < |LOWER| && LOWER[i] == c {
      LetterAt(i);
    }
    assert EVENT_LETTERS[|LOWER|] == '_';
  }
}
