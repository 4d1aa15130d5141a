/** The models and efforts of the routing policy. */
module Models {
  datatype Model = Luna | Terra | Sol | Astra
  datatype Effort = Low | Medium | High | Xhigh | Max
}
