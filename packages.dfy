/** A native package the generated project needs to build. */
module Packages {

  /** Package name and a human-readable description. */
  datatype Dependency = Dependency(name: string, info: string)

  /** The names of the packages, in order. */
  function Names(ds: seq<Dependency>): (ns: seq<string>)
    ensures |ns| == |ds|
    ensures forall i :: 0 <= i < |ds| ==> ns[i] == ds[i].name
  {
    seq(|ds|, i requires 0 <= i < |ds| => ds[i].name)
  }
}
