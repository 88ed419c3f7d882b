/** The vocabularies of the carcinoma rule: qualifiers that may precede a cancer word and the certainty cues. */
module CancerTerms {
  /** `OTHER_CANCER_TERMS`: words that can qualify a cancer word ("invasive", "mucinous", ...). */
  const OtherCancerTerms: seq<string> :=
    Other0 + Other1 + Other2 + Other3 + Other4 + Other5 + Other6 + Other7 + Other8 + Other9
  const Other0: seq<string> := [
    "embryonal", "nodular", "transitional", "myofibroblastic", "oss", "fusiform", "myoepithelioma",
    "familial", "metaplastic", "invas", "serrated", "epithelioma", "invasive", "carc", "myosarcoma"
  ]
  const Other1: seq<string> := [
    "carcinofibroma", "enterochromaffin", "cystadenocarcinoma", "cartilag", "well", "well-differentiated",
    "balloon", "epithelial", "neoplasm", "polyposis", "rectum", "nos", "basal", "differen", "verrucous"
  ]
  const Other2: seq<string> := [
    "simplex", "composite", "coli", "mucoepidermoid", "neuroendocrine", "like", "trans", "glassy",
    "adenocarc", "fibroblastic", "fascial", "metaplas", "angiomyosarcoma", "desmoplastic", "pleomorphic"
  ]
  const Other3: seq<string> := [
    "sq", "ker", "tubular", "amelanotic", "mucosal", "signet", "tumor", "goblet", "myoepithelial",
    "liposarcoma", "adenoid", "basaloid", "apocrine", "diffuse", "carcinoma"
  ]
  const Other4: seq<string> := [
    "mixed", "ring", "regressing", "mal", "dedifferentiated", "squamous", "mucin", "atypical",
    "adenosquamous", "osteoclast", "large", "rhabdoid", "fibrosarcoma", "lg", "adenoma"
  ]
  const Other5: seq<string> := [
    "polyps", "mult", "leiomyosarcoma", "spindle", "question", "cloacogenic", "formation",
    "fibromyxosarcoma", "epithelioid", "pigmented", "micro", "melanoma", "subtypes", "sarcoma",
    "undifferentiated"
  ]
  const Other6: seq<string> := [
    "solid", "type", "mataplasia", "duct", "sm", "stromal", "differentiated", "and", "with", "spreading",
    "adenocarcinoid", "scirrhous", "acinar", "papillary", "phenotype"
  ]
  const Other7: seq<string> := [
    "clear", "adenomatous", "producing", "cell", "metaplasia", "adenocarcinoma", "hepatoid", "epithel",
    "medullary", "keratinizing", "fibrous", "polygonal", "micropapillary", "small", "non"
  ]
  const Other8: seq<string> := [
    "anaplastic", "polyp", "lentiginous", "villous", "malignant", "tubulovillous", "infantile",
    "superficial", "solitary", "round", "horn", "cells", "w", "mucinous", "myxoid"
  ]
  const Other9: seq<string> := [
    "carcinosarcoma", "nevus", "pseudosarcomatous", "giant", "gastrointestinal", "carcinoid",
    "schneiderian"
  ]
  /** `CANCER_SEER_MAYBE`: cues for a probable cancer ("suspicious", "consistent", ...). */
  const SeerMaybe: seq<string> := SeerMaybe0 + SeerMaybe1
  const SeerMaybe0: seq<string> := [
    "suspicious", "apparent", "apparently", "appears", "consistent", "compatible", "comparable", "favor",
    "favors", "appearing", "likely", "presumed", "presumptive", "presumably"
  ]
  const SeerMaybe1: seq<string> := [
    "presumedly", "favored", "suspecting", "probable", "suspect", "suspected", "typical", "typically"
  ]
  /** `CANCER_NEGATION_TERMS`: cues for a negated cancer. */
  const NegationTerms: seq<string> := [
    "no", "not", "unlikely", "improbable", "improbably", "doubt", "doubtful", "doubted", "unclear",
    "preclude", "precludes", "cannot", "or"
  ]
  /** `CANCER_MAYBE_TERMS`: cues for a possible cancer. */
  const MaybeTerms: seq<string> := [
    "possible", "possibly", "suggestive", "versus", "questionable", "vs", "v", "surmise", "suggesting",
    "possibility"
  ]
}
