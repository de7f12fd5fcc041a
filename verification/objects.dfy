/** The Kubernetes objects the controller reads and writes, reduced to the
    fields the reconciliation logic touches. */
module Objects {

  newtype byte = x: int | 0 <= x < 256

  /** Identifies a namespaced object within one kind. */
  datatype ObjectKey = ObjectKey(namespace: string, name: string)

  /** The part of `metav1.ObjectMeta` the controller uses. A resourceVersion
      of 0 stands for the unset (empty) version; the API server only ever
      hands out positive versions. */
  datatype ObjectMeta = ObjectMeta(
    namespace: string,
    name: string,
    labels: map<string, string>,
    annotations: map<string, string>,
    resourceVersion: nat)

  datatype Secret = Secret(meta: ObjectMeta, data: map<string, seq<byte>>, secretType: string)
  {
    function Key(): ObjectKey {
      ObjectKey(meta.namespace, meta.name)
    }

    /** The same secret carrying resourceVersion `rv`. */
    function WithVersion(rv: nat): Secret {
      this.(meta := meta.(resourceVersion := rv))
    }
  }

  /** `corev1.LocalObjectReference`: a reference by name to an object in the same namespace. */
  datatype LocalObjectReference = LocalObjectReference(name: string)

  datatype ServiceAccount = ServiceAccount(meta: ObjectMeta, imagePullSecrets: seq<LocalObjectReference>)
  {
    function Key(): ObjectKey {
      ObjectKey(meta.namespace, meta.name)
    }

    /** The same service account carrying resourceVersion `rv`. */
    function WithVersion(rv: nat): ServiceAccount {
      this.(meta := meta.(resourceVersion := rv))
    }
  }

  /** Namespaces are cluster scoped: a name and labels. */
  datatype Namespace = Namespace(name: string, labels: map<string, string>)

  /** The `runtime.Object` a reconciliation engine hands to a handler. */
  datatype RuntimeObject =
    | NamespaceObject(ns: Namespace)
    | SecretObject(secret: Secret)
    | ServiceAccountObject(account: ServiceAccount)
    | OtherObject(kind: string)
}
