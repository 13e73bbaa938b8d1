/** The states a consultation and its archive go through. */
module Lifecycle {
  type Id = nat

  type Time = int

  /** The source calls the third state active and the last deleted; here no two states share a name. */
  datatype ConsultationState = Invited | Ready | Live | Finalizing | Ended | Cancelled | Erased

  datatype ArchiveState = Pending | Recording | Reconciling | Complete | Incomplete | Deleting | Deleted
}
