/**
  What the coordinator and the agent see of the cluster API. Every Create, Get,
  Delete and List call is an abstract outcome supplied from outside: accepted,
  or rejected with the error text the API returned.
*/
module KubeApi {

  /** The label on the discovery service that carries the start time. */
  const StartTimeLabel: string := "kube-network-scan/start-time"

  datatype ApiOutcome = Accepted | Rejected(reason: string)

  /** The result of a namespace List filtered on `metadata.name`: how many items it returned. */
  datatype ListOutcome = Listed(items: nat) | ListRejected(reason: string)

  datatype Kind = NamespaceKind | RoleKind | ServiceAccountKind | RoleBindingKind | ServiceKind | DaemonSetKind

  /** The objects the coordinator creates, with the fields that carry logic. */
  datatype Resource =
    | Namespace(name: string)
    | Role(namespace: string, name: string)
    | ServiceAccount(namespace: string, name: string)
    | RoleBinding(namespace: string, name: string, role: string, account: string)
    | Service(namespace: string, name: string, labels: map<string, string>)
    | DaemonSet(namespace: string, name: string, image: string, account: string)
  {
    function Kind(): Kind {
      match this
      case Namespace(_) => NamespaceKind
      case Role(_, _) => RoleKind
      case ServiceAccount(_, _) => ServiceAccountKind
      case RoleBinding(_, _, _, _) => RoleBindingKind
      case Service(_, _, _) => ServiceKind
      case DaemonSet(_, _, _, _) => DaemonSetKind
    }
  }

  /** The calls the coordinator issues, in the order it issues them. */
  datatype Action =
    | GetPod(namespace: string, name: string)
    | Create(resource: Resource)
    | DeleteByName(name: string)
    | ListByName(name: string)

  datatype Container = Container(name: string, image: string)

  datatype Pod = Pod(name: string, containers: seq<Container>)

}
