/** The enumerations shared by the pathology and colonoscopy engines. */
module Enums {
  datatype AdenomaCountMethod = CountInJar | OnePerJar

  datatype Histology = Tubular | Tubulovillous | Villous

  datatype Location = Any | Proximal | Distal | Rectal | UnknownLocation

  /** How certain a mention is; UNKNOWN counts like DEFINITE for carcinomas. */
  datatype AssertionStatus = UnknownStatus | Negated | Improbable | Possible | Probable | Definite
}
