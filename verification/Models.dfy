/** Types shared by the extraction components. */
module Models {

  type DocId = nat

  datatype ExtractionState = PENDING | TIER_A_DONE | TIER_B_DONE | TIER_C_DONE | COMPLETED | FAILED
}
