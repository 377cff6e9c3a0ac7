/**
 * `golem-sdk manifest net add-outbound` (src/manifest/net/manifest-net-add-outbound.action.ts):
 * all-or-nothing URL validation, protocol names, and the merge of the new URLs and
 * protocols into the manifest's `compManifest.net.inet.out`.  URL parsing and reading
 * the manifest file are inputs.
 */
module ManifestNet {
  import opened Wrappers
  import opened Text
  import opened Data

  /** A parsed URL: its text and its `protocol`, which ends with ':'. */
  datatype Url = Url(href: string, protocol: string)

  /**
   * What the `forEach` of `parseUrls` collects: the parsed URLs and the rejected inputs,
   * each in input order.
   */
  function Collect(urls: seq<string>, parse: string -> Option<Url>): (r: (seq<Url>, seq<string>))
    ensures |r.0| + |r.1| == |urls|
    ensures forall u :: u in r.1 <==> u in urls && parse(u).None?
    ensures r.1 == [] <==> forall i :: 0 <= i < |urls| ==> parse(urls[i]).Some?
    ensures r.1 == [] ==> |r.0| == |urls| && forall i :: 0 <= i < |urls| ==> parse(urls[i]) == Some(r.0[i])
  {
    if |urls| == 0 then ([], [])
    else
      var prefix := urls[..|urls| - 1];
      var last := urls[|urls| - 1];
      var c := Collect(prefix, parse);
      assert urls == prefix + [last];
      match parse(last)
      case Some(url) => (c.0 + [url], c.1)
      case None => (c.0, c.1 + [last])
  }

  /**
   * `parseUrls`: the parsed URLs, or every invalid URL in order (the source then prints
   * them and throws).
   */
  method ParseUrls(urls: seq<string>, parse: string -> Option<Url>) returns (r: Result<seq<Url>, seq<string>>)
    ensures r.Success? <==> forall i :: 0 <= i < |urls| ==> parse(urls[i]).Some?
    ensures r.Success? ==> |r.value| == |urls| && forall i :: 0 <= i < |urls| ==> parse(urls[i]) == Some(r.value[i])
    ensures r.Failure? ==> r.error == Collect(urls, parse).1 && forall u :: u in r.error <==> u in urls && parse(u).None?
  {
    var parsed: seq<Url> := [];
    var errors: seq<string> := [];
    for i := 0 to |urls|
      invariant (parsed, errors) == Collect(urls[..i], parse)
    {
      assert urls[..i + 1][..i] == urls[..i];
      match parse(urls[i]) {
        case Some(url) => parsed := parsed + [url];
        case None => errors := errors + [urls[i]];
      }
    }
    assert urls[..|urls|] == urls;
    if |errors| > 0 {
      return Failure(errors);
    }
    return Success(parsed);
  }

  /** `protocol.replace(/:$/, "")`: one trailing ':' removed. */
  function ProtocolName(protocol: string): (r: string)
    ensures EndsWith(protocol, ":") ==> r + ":" == protocol
    ensures !EndsWith(protocol, ":") ==> r == protocol
  {
    if EndsWith(protocol, ":") then protocol[..|protocol| - 1] else protocol
  }

  function Protocols(urls: seq<Url>): (r: seq<string>)
    ensures |r| == |urls| && forall i :: 0 <= i < |urls| ==> r[i] == ProtocolName(urls[i].protocol)
  {
    if |urls| == 0 then [] else [ProtocolName(urls[0].protocol)] + Protocols(urls[1..])
  }

  datatype Out = Out(protocols: Option<seq<string>>, urls: Option<seq<string>>)
  datatype Inet = Inet(out: Option<Out>)
  datatype Net = Net(inet: Option<Inet>)
  /** `compManifest`; the `script` part is carried as it is. */
  datatype Comp = Comp(version: Option<string>, script: Option<string>, net: Option<Net>)
  /** A manifest: the fields outside `compManifest` are carried as they are. */
  datatype Doc = Doc(others: string, compManifest: Option<Comp>)

  const CompVersion := "0.1.0"

  /** `manifest?.compManifest?.net?.inet?.out`. */
  function ExistingOut(doc: Doc): Option<Out> {
    if doc.compManifest.Some? && doc.compManifest.value.net.Some? && doc.compManifest.value.net.value.inet.Some?
    then doc.compManifest.value.net.value.inet.value.out
    else None
  }

  function ExistingUrls(doc: Doc): seq<string> {
    var out := ExistingOut(doc);
    if out.Some? && out.value.urls.Some? then out.value.urls.value else []
  }

  function ExistingProtocols(doc: Doc): seq<string> {
    var out := ExistingOut(doc);
    if out.Some? && out.value.protocols.Some? then out.value.protocols.value else []
  }

  /** lodash `merge` of two arrays: the source's entries by index, then the destination's longer tail. */
  function MergeArrays(dst: seq<string>, src: seq<string>): (r: seq<string>)
    ensures |r| == if |dst| > |src| then |dst| else |src|
    ensures src <= r
    ensures forall i :: |src| <= i < |r| ==> r[i] == dst[i]
  {
    if |dst| > |src| then src + dst[|src|..] else src
  }

  /** `merge(manifest, { compManifest: comp })` for the `comp` the action builds. */
  function MergeComp(doc: Doc, urls: seq<string>, protocols: seq<string>): Doc {
    var prior := doc.compManifest;
    var out := Out(Some(MergeArrays(ExistingProtocols(doc), protocols)), Some(MergeArrays(ExistingUrls(doc), urls)));
    Doc(doc.others, Some(Comp(Some(CompVersion), if prior.Some? then prior.value.script else None, Some(Net(Some(Inet(Some(out))))))))
  }

  function Bullets(urls: seq<string>): (r: seq<string>)
    ensures |r| == |urls| && forall i :: 0 <= i < |urls| ==> r[i] == "- " + urls[i]
  {
    if |urls| == 0 then [] else ["- " + urls[0]] + Bullets(urls[1..])
  }

  /** What the run printed to stderr, what it wrote to the manifest file, and what it threw. */
  datatype NetRun = NetRun(errors: seq<string>, written: Option<Doc>, thrown: Option<string>)

  /**
   * `manifestNetAddOutboundAction`; `manifest` is what `readManifest` returns or throws,
   * `writeError` the error `writeFile` rejects with, if any.
   */
  function AddOutbound(urls: seq<string>, parse: string -> Option<Url>, manifest: Result<Doc, string>,
                       writeError: Option<string>): NetRun {
    var c := Collect(urls, parse);
    if |c.1| > 0 then NetRun(["Invalid URLs:", Join(Bullets(c.1), "\n")], None, Some("Invalid URL(s) provided."))
    else if manifest.Failure? then NetRun([], None, Some(manifest.error))
    else
      var doc := manifest.value;
      var newUrls := CombineUniqueArrays(ExistingUrls(doc), urls);
      var newProtocols := CombineUniqueArrays(ExistingProtocols(doc), Protocols(c.0));
      if writeError.Some? then NetRun([], None, writeError)
      else NetRun([], Some(MergeComp(doc, newUrls, newProtocols)), None)
  }

  /**
   * One invalid URL stops the command before the manifest is read: nothing is written,
   * whatever the manifest holds, and every invalid URL is listed in order.
   */
  lemma InvalidUrlStopsEverything(urls: seq<string>, parse: string -> Option<Url>, m1: Result<Doc, string>,
                                  m2: Result<Doc, string>, w1: Option<string>, w2: Option<string>, i: int)
    requires 0 <= i < |urls| && parse(urls[i]).None?
    ensures AddOutbound(urls, parse, m1, w1) == AddOutbound(urls, parse, m2, w2)
    ensures var run := AddOutbound(urls, parse, m1, w1);
      run.written.None? && run.thrown == Some("Invalid URL(s) provided.")
      && |run.errors| == 2 && run.errors[1] == Join(Bullets(Collect(urls, parse).1), "\n")
    ensures forall u :: u in Collect(urls, parse).1 <==> u in urls && parse(u).None?
  {
    assert urls[i] in Collect(urls, parse).1;
  }

  /**
   * With every URL valid and the manifest read, the new lists are the unique merges of
   * the existing ones (or none) and the given URLs and their protocols, and the
   * `compManifest` version is 0.1.0; existing entries come first.
   */
  lemma WrittenOutbound(urls: seq<string>, parse: string -> Option<Url>, doc: Doc)
    requires forall i :: 0 <= i < |urls| ==> parse(urls[i]).Some?
    requires NoDuplicates(ExistingUrls(doc)) && NoDuplicates(ExistingProtocols(doc))
    ensures var run := AddOutbound(urls, parse, Success(doc), None);
      run.written.Some? && run.thrown.None? && run.errors == []
      && var comp := run.written.value.compManifest.value;
         var out := comp.net.value.inet.value.out.value;
         comp.version == Some(CompVersion)
         && out.urls == Some(CombineUniqueArrays(ExistingUrls(doc), urls))
         && out.protocols == Some(CombineUniqueArrays(ExistingProtocols(doc), Protocols(Collect(urls, parse).0)))
         && ExistingUrls(doc) <= out.urls.value
         && ExistingProtocols(doc) <= out.protocols.value
         && NoDuplicates(out.urls.value) && NoDuplicates(out.protocols.value)
         && run.written.value.others == doc.others
  {
    var c := Collect(urls, parse);
    assert c.1 == [];
    var newUrls := CombineUniqueArrays(ExistingUrls(doc), urls);
    var newProtocols := CombineUniqueArrays(ExistingProtocols(doc), Protocols(c.0));
    assert AddOutbound(urls, parse, Success(doc), None)
        == NetRun([], Some(MergeComp(doc, newUrls, newProtocols)), None);
    CombinePrefix(ExistingUrls(doc), urls);
    CombinePrefix(ExistingProtocols(doc), Protocols(c.0));
  }

  /** With every URL valid and the manifest read, a rejected `writeFile` throws its error and nothing is written. */
  lemma FailedWriteThrows(urls: seq<string>, parse: string -> Option<Url>, doc: Doc, e: string)
    requires forall i :: 0 <= i < |urls| ==> parse(urls[i]).Some?
    ensures AddOutbound(urls, parse, Success(doc), Some(e)) == NetRun([], None, Some(e))
  {
    assert Collect(urls, parse).1 == [];
  }

  /** The protocol list holds each valid URL's protocol without its ':', in order. */
  lemma ProtocolsOfUrls(urls: seq<string>, parse: string -> Option<Url>)
    requires forall i :: 0 <= i < |urls| ==> parse(urls[i]).Some?
    ensures var p := Protocols(Collect(urls, parse).0);
      |p| == |urls| && forall i :: 0 <= i < |urls| ==> p[i] == ProtocolName(parse(urls[i]).value.protocol)
  {
  }

  /**
   * When the existing list has duplicates, lodash's index-wise merge keeps the old
   * list's tail, so the written list can hold duplicates.
   */
  lemma DuplicateTailSurvivesMerge()
    ensures MergeArrays(["a", "a", "b"], ["a", "b"]) == ["a", "b", "b"]
  {
    assert ["a", "a", "b"][2..] == ["b"];
  }
}
