/** The custody metadata of a delivery: what Render states of it, laid over what the package says. */
module ArchiveMetadata {
  import opened Wrappers
  import opened ArchiveHandoff

  const REQUEST_ID := "archive_request_id"
  const REFERENCE := "document_reference"
  const DIGEST := "declared_artifact_sha256"
  const TEMPLATE_DIGEST := "template_digest"
  const TEMPLATE_PUBLICATION := "template_publication"

  lemma KeysDiffer()
    ensures REQUEST_ID != REFERENCE && REQUEST_ID != DIGEST && REFERENCE != DIGEST
    ensures TEMPLATE_DIGEST !in {REQUEST_ID, REFERENCE, DIGEST}
    ensures TEMPLATE_PUBLICATION !in {REQUEST_ID, REFERENCE, DIGEST, TEMPLATE_DIGEST}
  {
    assert |REQUEST_ID| == 18 && |REFERENCE| == 18 && |DIGEST| == 24;
    assert |TEMPLATE_DIGEST| == 15 && |TEMPLATE_PUBLICATION| == 20;
    assert REQUEST_ID[0] == 'a' && REFERENCE[0] == 'd';
  }

  predicate Supplied(fact: Option<string>) {
    fact.Some? && fact.value != []
  }

  function WithFact(m: map<string, string>, key: string, fact: Option<string>): map<string, string> {
    if Supplied(fact) then m[key := fact.value] else m
  }

  /**
   `build_archive_metadata`: custody's own facts, overlaid with the identity of the delivery, with
   what else Render states of it, and with the two template facts when the engine supplies them.
   */
  function Metadata(
    sha: string -> string, context: Context, artifactSha256: string, stated: map<string, string>,
    templateDigest: Option<string>, templatePublication: Option<string>): Option<map<string, string>>
  {
    var requestId := ReconciliationRequestId(sha, context, artifactSha256);
    if requestId.None? then None
    else
      var identity := map[REQUEST_ID := requestId.value, REFERENCE := Strip(context.reference.value),
                          DIGEST := Normalize(artifactSha256)];
      var m := context.custody.value + stated + identity;
      Some(WithFact(WithFact(m, TEMPLATE_DIGEST, templateDigest), TEMPLATE_PUBLICATION, templatePublication))
  }

  /** A key of the metadata speaks for Render: what is there is what Render supplied, if it supplied any. */
  predicate SpeaksForRender(m: map<string, string>, key: string, fact: Option<string>) {
    if Supplied(fact) then key in m && m[key] == fact.value else key !in m
  }

  /**
   No custody block redirects a delivery or overrides a fact Render states, and everything else it
   says passes through. For the two template facts the promise holds exactly when the engine
   supplies the fact or the block does not name it: an unsupplied one lets the block's own through.
   */
  lemma CustodyCannotOverride(
    sha: string -> string, context: Context, artifactSha256: string, stated: map<string, string>,
    templateDigest: Option<string>, templatePublication: Option<string>)
    requires TEMPLATE_DIGEST !in stated && TEMPLATE_PUBLICATION !in stated
    ensures var requestId := ReconciliationRequestId(sha, context, artifactSha256);
            var metadata := Metadata(sha, context, artifactSha256, stated, templateDigest, templatePublication);
            && (metadata.Some? <==> requestId.Some?)
            && (metadata.Some? ==>
                  var m, custody := metadata.value, context.custody.value;
                  && REQUEST_ID in m && m[REQUEST_ID] == requestId.value
                  && REFERENCE in m && m[REFERENCE] == Strip(context.reference.value)
                  && DIGEST in m && m[DIGEST] == Normalize(artifactSha256)
                  && (forall k :: k in stated && k !in {REQUEST_ID, REFERENCE, DIGEST} ==> k in m && m[k] == stated[k])
                  && (forall k :: k in custody && k !in stated
                                  && k !in {REQUEST_ID, REFERENCE, DIGEST, TEMPLATE_DIGEST, TEMPLATE_PUBLICATION}
                                  ==> k in m && m[k] == custody[k])
                  && (SpeaksForRender(m, TEMPLATE_DIGEST, templateDigest)
                      <==> Supplied(templateDigest) || TEMPLATE_DIGEST !in custody)
                  && (SpeaksForRender(m, TEMPLATE_PUBLICATION, templatePublication)
                      <==> Supplied(templatePublication) || TEMPLATE_PUBLICATION !in custody))
  {
    KeysDiffer();
  }

  /** The input that shows it: an engine port without template facts, and a block that claims both. */
  lemma UnsuppliedFactsPassThrough(sha: string -> string, reference: string, artifactSha256: string)
    requires Strip(reference) != []
    ensures var custody := map[TEMPLATE_DIGEST := "forged", TEMPLATE_PUBLICATION := "forged"];
            var context := Context(Some(custody), Some(reference));
            var metadata := Metadata(sha, context, artifactSha256, map[], None, Some(""));
            && metadata.Some?
            && TEMPLATE_DIGEST in metadata.value && metadata.value[TEMPLATE_DIGEST] == "forged"
            && TEMPLATE_PUBLICATION in metadata.value && metadata.value[TEMPLATE_PUBLICATION] == "forged"
  {
    KeysDiffer();
  }
}
