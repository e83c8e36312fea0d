/** The resources the API returns, with the fields that decisions and payloads can see. */
module Resources {
  import opened Wrappers
  import Cel

  type Int32 = x: int | -0x8000_0000 <= x <= 0x7FFF_FFFF

  datatype Condition = Condition(
    kind: string,
    status: string,
    observedGeneration: Int32,
    lastUpdatedTime: int,
    lastTransitionTime: int,
    reason: string,
    message: string)

  datatype OwnerReference = OwnerReference(id: string, href: string, kind: string)

  datatype Resource = Resource(
    id: string,
    href: string,
    kind: string,
    createdTime: int,
    updatedTime: int,
    generation: Int32,
    labels: map<string, string>,
    ownerReferences: Option<OwnerReference>,
    metadata: Option<map<string, Cel.Value>>,
    conditions: seq<Condition>)
}
