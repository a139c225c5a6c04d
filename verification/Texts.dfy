/** Text outside CBOR, where its encoding does not matter. */
module Texts {
  type Text = seq<char>
}
