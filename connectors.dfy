/**
 * The shapes of the data the demo GraphQL server serves: plugins (connectors),
 * their authentication variants, and each variant's form fields and
 * connection test. These are plain values; nothing here changes them.
 */
module Connectors {
  import opened Wrappers

  datatype AuthMethod = ApiKey | OAuth2 | BasicAuth | ServiceAccount | Token | UsernamePassword

  datatype FieldMode = ReadOnly | WriteOnly | ReadWrite

  datatype FieldWidget =
    | TextInput | TextArea | Password | EmailInput | UrlInput | HostnameInput | Select
    | Radio | MultiSelect | Checkbox | Toggle | DatePicker | FileUpload | MarkdownDisplay

  datatype SelectOption = SelectOption(value: string, labelText: string, description: Option<string>)

  /** The attributes every form field has, whatever its kind. */
  datatype FieldCommon = FieldCommon(
    id: string,
    key: string,
    labelText: string,
    description: Option<string>,
    required: bool,
    widget: FieldWidget,
    mode: FieldMode,
    defaultValue: Option<string>,
    placeholder: Option<string>)

  /** A form field, one constructor per field kind, with that kind's extra attributes. */
  datatype FormField =
    | StringField(common: FieldCommon, minLength: Option<int>, maxLength: Option<int>, pattern: Option<string>)
    | SecretField(common: FieldCommon, revealable: bool)
    | EmailField(common: FieldCommon)
    | UrlField(common: FieldCommon)
    | HostnameField(common: FieldCommon)
    | SelectField(common: FieldCommon, options: seq<SelectOption>, allowCustom: bool)
    | MultiSelectField(common: FieldCommon, options: seq<SelectOption>,
                       minSelections: Option<int>, maxSelections: Option<int>)
    | BooleanField(common: FieldCommon)
    | ArrayField(common: FieldCommon, itemType: string, minItems: Option<int>, maxItems: Option<int>)
    | DateField(common: FieldCommon, minDate: Option<string>, maxDate: Option<string>)
    | FileField(common: FieldCommon, acceptedTypes: seq<string>, maxSize: Option<int>)
    | MarkdownField(common: FieldCommon, content: string)

  datatype TestMethod = HttpGet | HttpPost | Custom | ValidateFormat

  datatype ExpectedResponse = ExpectedResponse(
    statusCode: Option<int>,
    bodyPattern: Option<string>,
    headers: Option<string>,
    successMessage: string,
    failureMessage: string)

  datatype TestConfig = TestConfig(
    id: string,
    testMethod: TestMethod,
    endpoint: Option<string>,
    expectedResponse: ExpectedResponse,
    timeoutMs: int,
    customScript: Option<string>)

  /** One way of connecting to a plugin's service. */
  datatype Variant = Variant(
    id: string,
    name: string,
    description: Option<string>,
    authMethod: AuthMethod,
    recommended: bool,
    formFields: seq<FormField>,
    testConfig: TestConfig,
    documentationPath: string,
    icon: Option<string>)

  /** A plugin as the server lists it; `category` and `enabled` are what `plugins` filters on. */
  datatype Plugin = Plugin(
    id: string,
    slug: string,
    name: string,
    description: string,
    icon: Option<string>,
    category: string,
    enabled: bool,
    documentationPath: string,
    supportUrl: Option<string>,
    variants: seq<Variant>)
}
