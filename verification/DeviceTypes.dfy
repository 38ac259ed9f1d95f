/** What the components of the driver know of a device in common. */
module DeviceTypes {
  /** A physical or a virtual function. */
  datatype DeviceType = PF | VF

  /** The state of a device nothing bad is known of. */
  const ONLINE := "ONLINE"
}
