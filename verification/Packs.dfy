/** Vendor compatibility packs, as far as the registry and the reports read them (configs/vendor_packs.go). */
module Packs {
  datatype Mapping = Mapping(semantic: string, attribute: string, direction: string, valueType: string, state: string)

  datatype Pack = Pack(key: string, vendorName: string, vendorID: int, attributes: seq<Mapping>)

  const STANDARD := "standard"
  const AEGISNAS := "aegisnas"
}
