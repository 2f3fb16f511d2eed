// Ledger identifiers of schemas and credential definitions.
module Identifiers {

  function BuildSchemaId(did: string, name: string, version: string): string {
    did + ":" + "2" + ":" + name + ":" + version
  }

  function BuildCredDefId(did: string, schemaId: string, signatureType: string, tag: string): string {
    did + ":" + "3" + ":" + signatureType + ":" + schemaId + ":" + tag
  }

  lemma ColonFromStart(a: string, x: string, b: string, y: string)
    requires a + ":" + x == b + ":" + y
    ensures |a| < |b| ==> b[|a|] == ':'
  {
    assert (a + ":" + x)[|a|] == ':';
    assert |a| < |b| ==> (b + ":" + y)[|a|] == b[|a|];
  }

  // What stands before the first colon is determined, and so is the rest.
  lemma FirstColon(a: string, x: string, b: string, y: string)
    requires ':' !in a && ':' !in b && a + ":" + x == b + ":" + y
    ensures a == b && x == y
  {
    ColonFromStart(a, x, b, y);
    ColonFromStart(b, y, a, x);
    assert a == (a + ":" + x)[..|a|] && b == (b + ":" + y)[..|a|];
    assert x == (a + ":" + x)[|a| + 1..] && y == (b + ":" + y)[|a| + 1..];
  }

  lemma ColonFromEnd(x: string, a: string, y: string, b: string)
    requires x + ":" + a == y + ":" + b
    ensures |a| < |b| ==> b[|b| - 1 - |a|] == ':'
  {
    var s := x + ":" + a;
    assert s[|x|] == ':';
    assert |a| < |b| ==> (y + ":" + b)[|x|] == b[|b| - 1 - |a|];
  }

  lemma LastColon(x: string, a: string, y: string, b: string)
    requires ':' !in a && ':' !in b && x + ":" + a == y + ":" + b
    ensures x == y && a == b
  {
    ColonFromEnd(x, a, y, b);
    ColonFromEnd(y, b, x, a);
    assert x == (x + ":" + a)[..|x|] && y == (y + ":" + b)[..|x|];
    assert a == (x + ":" + a)[|x| + 1..] && b == (y + ":" + b)[|x| + 1..];
  }

  // A schema name may itself hold colons; DID and version may not.
  lemma SchemaIdInjective(did: string, name: string, version: string, did': string, name': string, version': string)
    requires ':' !in did && ':' !in did' && ':' !in version && ':' !in version'
    requires BuildSchemaId(did, name, version) == BuildSchemaId(did', name', version')
    ensures did == did' && name == name' && version == version'
  {
    var x, y := "2" + ":" + name + ":" + version, "2" + ":" + name' + ":" + version';
    assert BuildSchemaId(did, name, version) == did + ":" + x;
    assert BuildSchemaId(did', name', version') == did' + ":" + y;
    FirstColon(did, x, did', y);
    LastColon("2" + ":" + name, version, "2" + ":" + name', version');
    assert ("2" + ":" + name)[2..] == name && ("2" + ":" + name')[2..] == name';
  }

  // The schema identifier in the middle may hold any number of colons.
  lemma CredDefIdInjective(did: string, schemaId: string, sig: string, tag: string,
                           did': string, schemaId': string, sig': string, tag': string)
    requires ':' !in did && ':' !in did' && ':' !in sig && ':' !in sig' && ':' !in tag && ':' !in tag'
    requires BuildCredDefId(did, schemaId, sig, tag) == BuildCredDefId(did', schemaId', sig', tag')
    ensures did == did' && schemaId == schemaId' && sig == sig' && tag == tag'
  {
    var x, y := sig + ":" + schemaId + ":" + tag, sig' + ":" + schemaId' + ":" + tag';
    assert BuildCredDefId(did, schemaId, sig, tag) == did + ":" + ("3" + ":" + x);
    assert BuildCredDefId(did', schemaId', sig', tag') == did' + ":" + ("3" + ":" + y);
    FirstColon(did, "3" + ":" + x, did', "3" + ":" + y);
    FirstColon("3", x, "3", y);
    assert x == sig + ":" + (schemaId + ":" + tag) && y == sig' + ":" + (schemaId' + ":" + tag');
    FirstColon(sig, schemaId + ":" + tag, sig', schemaId' + ":" + tag');
    LastColon(schemaId, tag, schemaId', tag');
  }

  // Composed, every part of both identifiers can be recovered.
  lemma CredDefOfSchemaInjective(did: string, issuer: string, name: string, version: string, sig: string, tag: string,
                                 did': string, issuer': string, name': string, version': string,
                                 sig': string, tag': string)
    requires ':' !in did && ':' !in sig && ':' !in tag && ':' !in issuer && ':' !in version
    requires ':' !in did' && ':' !in sig' && ':' !in tag' && ':' !in issuer' && ':' !in version'
    requires BuildCredDefId(did, BuildSchemaId(issuer, name, version), sig, tag)
          == BuildCredDefId(did', BuildSchemaId(issuer', name', version'), sig', tag')
    ensures (did, issuer, name, version, sig, tag) == (did', issuer', name', version', sig', tag')
  {
    CredDefIdInjective(did, BuildSchemaId(issuer, name, version), sig, tag,
                       did', BuildSchemaId(issuer', name', version'), sig', tag');
    SchemaIdInjective(issuer, name, version, issuer', name', version');
  }
}
