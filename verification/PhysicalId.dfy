/** The CloudFormation physical identifier of the provisioned resources
    (lambda/common/vapi_provisioning.py: `ProvisionedVapi.physical_id`, `parse_physical_id`). */
module PhysicalId {
  import opened Wrappers
  import opened VapiRemote
  import opened VapiProvisioning
  import opened Text

  const PENDING := "bridgefu-vapi-pending"
  const V1 := "bridgefu-vapi-v1"
  const V2 := "bridgefu-vapi-v2"

  datatype Parsed = Parsed(assistantId: string, toolId: string, credentialId: Option<string>)

  function Render(p: Provisioned): string {
    "bridgefu-vapi-v2:" + p.assistantId + ":" + p.toolId + ":" + p.credentialId
  }

  function Parse(value: string): Result<Parsed, VapiError> {
    var parts := Split(value, ':');
    if |parts| == 3 && parts[0] == V1 then
      if ValidId(parts[1]) && ValidId(parts[2]) then Ok(Parsed(parts[1], parts[2], None))
      else Err(Failed("vapi_resource_id_invalid"))
    else if |parts| == 4 && parts[0] == V2 then
      if ValidId(parts[1]) && ValidId(parts[2]) && ValidId(parts[3]) then Ok(Parsed(parts[1], parts[2], Some(parts[3])))
      else Err(Failed("vapi_resource_id_invalid"))
    else
      Err(Failed("vapi_physical_id_invalid"))
  }

  lemma JoinThree(a: string, b: string, c: string)
    ensures Join([a, b, c], ':') == a + ":" + b + ":" + c
  {
    assert [a, b, c][1..] == [b, c];
    assert [b, c][1..] == [c];
    assert Join([b, c], ':') == b + [':'] + c;
  }

  lemma JoinFour(a: string, b: string, c: string, d: string)
    ensures Join([a, b, c, d], ':') == a + ":" + b + ":" + c + ":" + d
  {
    assert [a, b, c, d][1..] == [b, c, d];
    JoinThree(b, c, d);
  }

  lemma NoColon(id: string)
    requires ValidId(id)
    ensures ':' !in id
  {
  }

  /** Every identifier that is issued parses back, and a v2 identifier parses only if it was issued: the
      codec is a bijection between triples of valid resource ids and the accepted v2 strings. */
  lemma ParseIsInverse(value: string, p: Provisioned)
    ensures Parse(value) == Ok(Parsed(p.assistantId, p.toolId, Some(p.credentialId)))
       <==> ValidId(p.assistantId) && ValidId(p.toolId) && ValidId(p.credentialId) && value == Render(p)
  {
    var fields := [V2, p.assistantId, p.toolId, p.credentialId];
    JoinFour(V2, p.assistantId, p.toolId, p.credentialId);
    assert Render(p) == Join(fields, ':') by {
      assert "bridgefu-vapi-v2:" == V2 + ":";
    }
    if Parse(value) == Ok(Parsed(p.assistantId, p.toolId, Some(p.credentialId))) {
      JoinSplit(value, ':');
      assert Split(value, ':') == fields;
    }
    if ValidId(p.assistantId) && ValidId(p.toolId) && ValidId(p.credentialId) && value == Render(p) {
      NoColon(p.assistantId);
      NoColon(p.toolId);
      NoColon(p.credentialId);
      SplitJoin(fields, ':');
    }
  }

  /** The v1 identifiers still accepted from older stacks carry no credential. */
  lemma ParseV1(value: string, a: string, t: string)
    ensures Parse(value) == Ok(Parsed(a, t, None)) <==> ValidId(a) && ValidId(t) && value == V1 + ":" + a + ":" + t
  {
    JoinThree(V1, a, t);
    if Parse(value) == Ok(Parsed(a, t, None)) {
      JoinSplit(value, ':');
      assert Split(value, ':') == [V1, a, t];
    }
    if ValidId(a) && ValidId(t) && value == V1 + ":" + a + ":" + t {
      NoColon(a);
      NoColon(t);
      SplitJoin([V1, a, t], ':');
    }
  }

  /** The placeholder identifier of a failed create names no resource. */
  lemma PendingNamesNothing()
    ensures Parse(PENDING).Err?
  {
    SplitPrefix(PENDING, "", ':');
  }
}
