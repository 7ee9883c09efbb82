/** The global audit policy (`AuditSettings`) and the fluent builder that fills it in. */
module Settings {

  /** An opaque `JsonSerializerOptions` instance; only its identity matters to the audit code. */
  class SerializerOptions {
    constructor ()
    {
    }
  }

  /** `AuditSettings`: serializer options and whether only configured types are audited. */
  class AuditSettings {
    var jsonSerializerOptions: SerializerOptions
    var onlyConfiguredAudited: bool

    /** `new AuditSettings()`: fresh default options, and every type audited. */
    constructor ()
      ensures fresh(jsonSerializerOptions)
      ensures !onlyConfiguredAudited
    {
      jsonSerializerOptions := new SerializerOptions();
      onlyConfiguredAudited := false;
    }
  }

  /** `AuditSettingsBuilder`: setters on one settings object, which `Build` hands out itself. */
  class AuditSettingsBuilder {
    const settings: AuditSettings

    constructor ()
      ensures fresh(settings) && fresh(settings.jsonSerializerOptions)
      ensures !settings.onlyConfiguredAudited
    {
      settings := new AuditSettings();
    }

    /** Replaces the serializer options only. */
    method WithJsonSerializerOptions(options: SerializerOptions) returns (self: AuditSettingsBuilder)
      modifies settings
      ensures settings.jsonSerializerOptions == options
      ensures settings.onlyConfiguredAudited == old(settings.onlyConfiguredAudited)
      ensures self == this
    {
      settings.jsonSerializerOptions := options;
      self := this;
    }

    /** Sets the flag; called without an argument it sets it to true. */
    method OnlyConfiguredAudited(onlyConfiguredAudited: bool := true) returns (self: AuditSettingsBuilder)
      modifies settings
      ensures settings.onlyConfiguredAudited == onlyConfiguredAudited
      ensures settings.jsonSerializerOptions == old(settings.jsonSerializerOptions)
      ensures self == this
    {
      settings.onlyConfiguredAudited := onlyConfiguredAudited;
      self := this;
    }

    /** The builder's own settings object, not a copy. */
    method Build() returns (s: AuditSettings)
      ensures s == settings
    {
      s := settings;
    }
  }

  /**
   * Settings built before setter calls still see them, whatever builder they came from, because
   * `Build` returns the builder's own object.
   */
  method SettersAfterBuild(builder: AuditSettingsBuilder, options: SerializerOptions, onlyConfiguredAudited: bool)
    returns (built: AuditSettings)
    modifies builder.settings
    ensures built == builder.settings
    ensures built.jsonSerializerOptions == options && built.onlyConfiguredAudited == onlyConfiguredAudited
  {
    built := builder.Build();
    var b := builder.WithJsonSerializerOptions(options);
    b := b.OnlyConfiguredAudited(onlyConfiguredAudited);
  }
}
