/**
 * The declarative configuration of a project: machine names mapped to machine
 * definitions. The provisioning document is kept as a tree; the metadata service
 * re-encodes it as YAML when it serves it.
 */
module Config {
  import opened Wrappers

  /** A YAML value, the shape of the `cloud_config` tree a user writes. */
  datatype Document =
    | Null
    | Scalar(text: string)
    | Sequence(items: seq<Document>)
    | Mapping(entries: seq<(string, Document)>)

  /**
   * One machine definition. `cloudConfig` is None when the user gave no document
   * (a nil interface value). `ports` holds QEMU host-forward rules; the machine code
   * reads it although the configuration type declares no such field.
   */
  datatype MachineConfig = MachineConfig(image: string, cloudConfig: Option<Document>, ports: seq<string>)

  datatype ProjectConfig = ProjectConfig(machines: map<string, MachineConfig>)
}
