/**
 * The contact-form records of the profile (src/types/profile.ts): the form
 * configuration with its fields, and a submission.  A configuration read
 * from the profile may lack its optional texts and even its field list, so
 * those are `Option`s; `None` stands for `undefined` or `null`.
 */
module FormTypes {
  import opened Common

  /** A field of the contact form; `kind` is its input type ("text", "email", "tel", "textarea"). */
  datatype ContactFormField = ContactFormField(
    id: string, labelText: string, kind: string, placeholder: Option<string>,
    required: bool, enabled: bool)

  datatype ContactForm = ContactForm(
    enabled: bool, title: Option<string>, termsOfUse: Option<string>,
    buttonText: Option<string>, successMessage: Option<string>,
    fields: Option<seq<ContactFormField>>)

  /** A stored submission; `phone` is optional. */
  datatype FormSubmission = FormSubmission(
    id: string, profileId: string, name: string, phone: Option<string>,
    email: string, message: string, createdAt: string)

  /** `x || ""` for an optional text. */
  function OrEmpty(x: Option<string>): (r: string)
    ensures x.None? ==> r == ""
    ensures x.Some? ==> r == x.value
  {
    if x.Some? then x.value else ""
  }
}
